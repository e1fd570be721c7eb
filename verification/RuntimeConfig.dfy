/** The issuer configuration followed from a watched ConfigMap. */
module RuntimeConfig {
  import opened Base

  datatype IssuerRef = IssuerRef(name: string, kind: string, group: string)

  datatype Config = Config(issuerRef: IssuerRef)

  const ISSUER_NAME_KEY := "issuer-name"
  const ISSUER_KIND_KEY := "issuer-kind"
  const ISSUER_GROUP_KEY := "issuer-group"

  /** A watch event. The object is None when it is not a ConfigMap. */
  datatype Event = Added(source: Option<map<string, string>>) | Modified(source: Option<map<string, string>>)
                 | Deleted | Bookmark | ErrorEvent | UnknownEvent

  /** One turn of the outer loop: the watch cannot be opened, or it delivers events until closed or cancelled. */
  datatype Session = OpenFailed | Opened(events: seq<Event>, cancelled: bool)

  datatype ChangeError = WrongType | Missing(keys: seq<string>)

  predicate HasValue(data: map<string, string>, key: string) {
    key in data && data[key] != ""
  }

  /** All three keys have a value. */
  predicate Complete(data: map<string, string>) {
    HasValue(data, ISSUER_NAME_KEY) && HasValue(data, ISSUER_KIND_KEY) && HasValue(data, ISSUER_GROUP_KEY)
  }

  function ConfigOf(data: map<string, string>): Config
    requires Complete(data)
  {
    Config(IssuerRef(data[ISSUER_NAME_KEY], data[ISSUER_KIND_KEY], data[ISSUER_GROUP_KEY]))
  }

  predicate Populated(c: Config) {
    c.issuerRef.name != "" && c.issuerRef.kind != "" && c.issuerRef.group != ""
  }

  /** The reference takes its fields from the keys of the same names, none of them empty. */
  predicate Names(ref: IssuerRef, data: map<string, string>) {
    && "issuer-name" in data && ref.name == data["issuer-name"] != ""
    && "issuer-kind" in data && ref.kind == data["issuer-kind"] != ""
    && "issuer-group" in data && ref.group == data["issuer-group"] != ""
  }

  // ---------- Meaning of a history ----------

  /** An event that changes the configuration, whatever it was: a complete ConfigMap, or its deletion. */
  predicate Effective(e: Event) {
    e.Deleted? || ((e.Added? || e.Modified?) && e.source.Some? && Complete(e.source.value))
  }

  function Effect(fallback: Config, e: Event): Config
    requires Effective(e)
  {
    if e.Deleted? then fallback else ConfigOf(e.source.value)
  }

  /** Events delivered over a sequence of sessions, up to cancellation. */
  function Delivered(sessions: seq<Session>): seq<Event> {
    if sessions == [] then []
    else if sessions[0].OpenFailed? then Delivered(sessions[1..])
    else if sessions[0].cancelled then sessions[0].events
    else sessions[0].events + Delivered(sessions[1..])
  }

  /** `c` is the effect of the last effective event, or the fallback if there is none. */
  ghost predicate IsLatest(fallback: Config, events: seq<Event>, c: Config) {
    || (c == fallback && forall i :: 0 <= i < |events| ==> !Effective(events[i]))
    || exists k :: LastEffectiveAt(events, k) && c == Effect(fallback, events[k])
  }

  ghost predicate LastEffectiveAt(events: seq<Event>, k: int) {
    0 <= k < |events| && Effective(events[k]) && forall i :: k < i < |events| ==> !Effective(events[i])
  }

  lemma LatestStep(fallback: Config, events: seq<Event>, e: Event, c: Config)
    requires IsLatest(fallback, events, c)
    ensures IsLatest(fallback, events + [e], if Effective(e) then Effect(fallback, e) else c)
  {
    var more := events + [e];
    if Effective(e) {
      assert LastEffectiveAt(more, |events|);
    } else if k :| LastEffectiveAt(events, k) && c == Effect(fallback, events[k]) {
      assert LastEffectiveAt(more, k) && more[k] == events[k];
    }
  }

  /** A history determines the configuration. */
  lemma LatestUnique(fallback: Config, events: seq<Event>, c: Config, d: Config)
    requires IsLatest(fallback, events, c) && IsLatest(fallback, events, d)
    ensures c == d
  {
  }

  /** It is the fallback or has every field set. */
  lemma LatestPopulated(fallback: Config, events: seq<Event>, c: Config)
    requires IsLatest(fallback, events, c)
    ensures c == fallback || Populated(c)
  {
  }

  /** The event is a ConfigMap from which a whole reference can be read. */
  ghost predicate Carries(e: Event, ref: IssuerRef) {
    (e.Added? || e.Modified?) && e.source.Some? && Names(ref, e.source.value)
  }

  /** The event says nothing: no deletion, and no ConfigMap from which a whole reference can be read. */
  ghost predicate Silent(e: Event) {
    !e.Deleted? && forall ref :: !Carries(e, ref)
  }

  lemma SilentExactly(e: Event)
    ensures Silent(e) <==> !Effective(e)
  {
    if Effective(e) && !e.Deleted? {
      assert Carries(e, ConfigOf(e.source.value).issuerRef);
    }
  }

  /**
   The configuration in terms of the ConfigMaps: the last event that says anything was a deletion, and the
   fallback is active; or it was a ConfigMap, and the reference active is the one it names; or there was
   none.
   */
  lemma LatestNames(fallback: Config, events: seq<Event>, c: Config)
    ensures IsLatest(fallback, events, c)
       <==> || (c == fallback && forall i :: 0 <= i < |events| ==> Silent(events[i]))
            || exists k :: 0 <= k < |events| && (forall i :: k < i < |events| ==> Silent(events[i]))
                           && ((events[k].Deleted? && c == fallback) || Carries(events[k], c.issuerRef))
  {
    hide Silent;
    forall i | 0 <= i < |events| ensures Silent(events[i]) <==> !Effective(events[i]) {
      SilentExactly(events[i]);
    }
    if k :| 0 <= k < |events| && (forall i :: k < i < |events| ==> Silent(events[i]))
            && ((events[k].Deleted? && c == fallback) || Carries(events[k], c.issuerRef)) {
      assert LastEffectiveAt(events, k) && c == Effect(fallback, events[k]);
    }
  }

  predicate Cancelled(session: Session) {
    session.Opened? && session.cancelled
  }

  /** The first n sessions deliver what the first n - 1 did and then the last one's events; cancellation ends it. */
  lemma {:induction false} DeliveredStep(sessions: seq<Session>, n: nat)
    requires n < |sessions| && forall i :: 0 <= i < n ==> !Cancelled(sessions[i])
    ensures Delivered(sessions[..n + 1])
         == Delivered(sessions[..n]) + if sessions[n].Opened? then sessions[n].events else []
    ensures Cancelled(sessions[n]) ==> Delivered(sessions) == Delivered(sessions[..n + 1])
    decreases n
  {
    if n == 0 {
      assert sessions[..1][1..] == [] && sessions[..0] == [];
    } else {
      assert sessions[..n + 1][1..] == sessions[1..][..n] && sessions[..n][1..] == sessions[1..][..n - 1];
      DeliveredStep(sessions[1..], n - 1);
    }
  }

  // ---------- The watcher ----------

  class ConfigMapSource {
    const fallback: Config
    var active: Config

    constructor (fallback: Config)
      ensures this.fallback == fallback && active == fallback
    {
      this.fallback := fallback;
      active := fallback;
    }

    /** handleChange: nothing changes unless all three keys have a value. */
    method HandleChange(source: Option<map<string, string>>) returns (err: Outcome<ChangeError>)
      modifies this
      ensures err.Pass? <==> source.Some? && Complete(source.value)
      ensures err.Pass? ==> active == ConfigOf(source.value) && Names(active.issuerRef, source.value)
      ensures err.Fail? ==> active == old(active)
      ensures source.Some? && err.Fail? ==>
        err.error.Missing? && forall k :: k in err.error.keys <==>
          k in [ISSUER_NAME_KEY, ISSUER_KIND_KEY, ISSUER_GROUP_KEY] && !HasValue(source.value, k)
    {
      if source.None? {
        return Fail(WrongType);
      }
      var data := source.value;
      var missing: seq<string> := [];
      if !HasValue(data, ISSUER_NAME_KEY) {
        missing := missing + [ISSUER_NAME_KEY];
      }
      if !HasValue(data, ISSUER_KIND_KEY) {
        missing := missing + [ISSUER_KIND_KEY];
      }
      if !HasValue(data, ISSUER_GROUP_KEY) {
        missing := missing + [ISSUER_GROUP_KEY];
      }
      if |missing| > 0 {
        return Fail(Missing(missing));
      }
      active := Config(IssuerRef(data[ISSUER_NAME_KEY], data[ISSUER_KIND_KEY], data[ISSUER_GROUP_KEY]));
      return Pass;
    }

    /** handleDeletion. */
    method HandleDeletion()
      modifies this
      ensures active == fallback
    {
      active := fallback;
    }

    /** The switch on an event's type. */
    method HandleEvent(e: Event)
      modifies this
      ensures active == if Effective(e) then Effect(fallback, e) else old(active)
      ensures e.Deleted? ==> active == fallback
      ensures (e.Added? || e.Modified?) && e.source.Some? && (exists ref :: Names(ref, e.source.value)) ==>
                Names(active.issuerRef, e.source.value)
      ensures !e.Deleted? && !((e.Added? || e.Modified?) && e.source.Some? && Complete(e.source.value)) ==>
                active == old(active)
    {
      match e
      case Deleted => HandleDeletion();
      case Added(source) => var _ := HandleChange(source);
      case Modified(source) => var _ := HandleChange(source);
      case Bookmark =>
      case ErrorEvent =>
      case UnknownEvent =>
    }

    /** The inner loop: events until the watch ends. */
    method HandleEvents(events: seq<Event>, ghost before: seq<Event>)
      requires IsLatest(fallback, before, active)
      modifies this
      ensures IsLatest(fallback, before + events, active)
    {
      assert before + events[..0] == before;
      for i := 0 to |events|
        invariant IsLatest(fallback, before + events[..i], active)
      {
        LatestStep(fallback, before + events[..i], events[i], active);
        assert before + events[..i] + [events[i]] == before + events[..i + 1];
        HandleEvent(events[i]);
      }
      assert events[..|events|] == events;
    }

    /** start: opens watches one after the other and handles their events. */
    method Start(sessions: seq<Session>)
      requires active == fallback
      modifies this
      ensures IsLatest(fallback, Delivered(sessions), active)
      ensures active == fallback || Populated(active)
    {
      hide IsLatest, Delivered;
      InitiallyLatest(fallback);
      assert sessions[..0] == [];
      for n := 0 to |sessions|
        invariant forall i :: 0 <= i < n ==> !Cancelled(sessions[i])
        invariant IsLatest(fallback, Delivered(sessions[..n]), active)
      {
        ghost var before := Delivered(sessions[..n]);
        DeliveredStep(sessions, n);
        if sessions[n].OpenFailed? {
          assert before + [] == before;
          continue;
        }
        HandleEvents(sessions[n].events, before);
        if sessions[n].cancelled {
          LatestPopulated(fallback, Delivered(sessions), active);
          return;
        }
      }
      assert sessions[..|sessions|] == sessions;
      LatestPopulated(fallback, Delivered(sessions), active);
    }
  }

  lemma InitiallyLatest(fallback: Config)
    ensures IsLatest(fallback, Delivered([]), fallback)
  {
  }
}
