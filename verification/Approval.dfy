/**
 The approval controller: an event filter and a reconciler over a work queue, reading requests from an
 informer cache that lags behind the API server and writing decisions with optimistic concurrency.
 */
module Approval {
  import opened Base
  import opened Evaluator
  import opened RuntimeConfig

  type Key = string

  /** The part of a CertificateRequest fixed at creation. */
  datatype Request = Request(annotated: bool, spec: Spec, issuerRef: IssuerRef)

  datatype Condition = Approved | Denied | Ready

  /** A stored request: its resource version and its true conditions. */
  datatype Object = Object(version: nat, request: Request, conditions: set<Condition>)

  /** Evaluator options, the auto-approval flag, and every runtime configuration a reconcile may read. */
  datatype Env = Env(options: Options, autoApprove: bool, configs: set<Config>)

  // ---------- The two decisions ----------

  predicate HasSpiffeUri(request: Request) {
    request.spec.request.Some? &&
    exists i :: 0 <= i < |request.spec.request.value.uris| && request.spec.request.value.uris[i].scheme == "spiffe"
  }

  /** What Reconcile decides. It never looks at the auto-approval flag, nor at earlier conditions. */
  function Decide(options: Options, request: Request, config: Config): Condition {
    if request.annotated then
      if Evaluate(options, request.spec).Pass? then Approved else Denied
    else if HasSpiffeUri(request) || request.issuerRef == config.issuerRef then Denied
    else Approved
  }

  /** The body of Reconcile between reading the request and writing its status. */
  method DecideRequest(options: Options, request: Request, config: Config) returns (decision: Condition)
    ensures decision == Decide(options, request, config)
    ensures decision == Approved || decision == Denied
    ensures request.annotated ==> (decision == Approved <==> Evaluate(options, request.spec).Pass?)
    ensures !request.annotated ==>
      (decision == Denied <==> request.issuerRef == config.issuerRef
                               || (request.spec.request.Some? && exists uri ::
                                     uri in request.spec.request.value.uris && uri.scheme == "spiffe"))
  {
    hide Evaluate;
    if request.annotated {
      return if Evaluate(options, request.spec).Pass? then Approved else Denied;
    }
    if request.spec.request.Some? {
      var uris := request.spec.request.value.uris;
      for i := 0 to |uris|
        invariant forall k :: 0 <= k < i ==> uris[k].scheme != "spiffe"
      {
        if uris[i].scheme == "spiffe" {
          return Denied;
        }
      }
    }
    if request.issuerRef == config.issuerRef {
      return Denied;
    }
    return Approved;
  }

  predicate Decided(o: Object) {
    Approved in o.conditions || Denied in o.conditions
  }

  /** The event filter on the cached request. */
  predicate Passes(env: Env, o: Object) {
    !Decided(o) && (o.request.annotated || env.autoApprove)
  }

  // ---------- The controller in its environment ----------

  /** One change of a key: what is stored from this version on, or None from a deletion on. */
  datatype Entry = Entry(key: Key, version: nat, content: Option<Object>)

  /**
   `history` holds every change the API server has made, by version, and `cache` the last change of each key
   that has reached the informer. The work queue is `dirty`, the keys to be handled, and `processing`, the keys
   being handled, each with the object read for it. A key added while it is processed waits its turn.
   */
  datatype State = State(objects: map<Key, Object>, history: seq<Entry>, cache: map<Key, Entry>,
                         dirty: set<Key>, processing: map<Key, Option<Object>>)

  /**
   `Touch` is another controller's status write, `Sync` a change arriving in the cache, `Notify` an event
   for a key. `Dequeue`, `Read` and `Write` are the steps of Reconcile; a call that is not ok returns an
   error. `Restart` is a new process.
   */
  datatype Action =
    | Create(key: Key, request: Request)
    | Delete(key: Key)
    | Touch(key: Key)
    | Sync(version: nat)
    | Notify(key: Key)
    | Dequeue(key: Key)
    | Read(key: Key, ok: bool)
    | Write(key: Key, config: Config, ok: bool)
    | Restart

  /** The lister's answer: None is "not found". */
  function Cached(s: State, k: Key): Option<Object> {
    if k in s.cache then s.cache[k].content else None
  }

  /** The cache moves forward only, but may skip changes. */
  predicate Enabled(env: Env, s: State, a: Action) {
    match a
    case Create(k, _) => k !in s.objects
    case Delete(k) => k in s.objects
    case Touch(k) => k in s.objects
    case Sync(v) => v < |s.history| && (s.history[v].key in s.cache ==> s.cache[s.history[v].key].version < v)
    case Notify(_) => true
    case Dequeue(k) => k in s.dirty && k !in s.processing
    case Read(k, _) => k in s.processing && s.processing[k].None?
    case Write(k, config, _) => k in s.processing && s.processing[k].Some? && config in env.configs
    case Restart => true
  }

  /** Stores a request under a new version. */
  function Store(s: State, k: Key, request: Request, conditions: set<Condition>): State {
    var o := Object(|s.history|, request, conditions);
    s.(objects := s.objects[k := o], history := s.history + [Entry(k, o.version, Some(o))])
  }

  /** The queue is done with the key. */
  function Forget(s: State, k: Key): State {
    s.(processing := s.processing - {k})
  }

  /** After an error the key is put back. */
  function Requeue(s: State, k: Key): State {
    Forget(s, k).(dirty := s.dirty + {k})
  }

  /** The status write succeeds only on the current version. */
  function ApplyWrite(env: Env, s: State, k: Key, o: Object, config: Config, ok: bool): State {
    if ok && k in s.objects && s.objects[k].version == o.version then
      Forget(Store(s, k, o.request, o.conditions + {Decide(env.options, o.request, config)}), k)
    else Requeue(s, k)
  }

  function ApplyRead(s: State, k: Key, ok: bool): State {
    if !ok then Requeue(s, k)
    else
      match Cached(s, k)
      case None => Forget(s, k)
      case Some(o) => s.(processing := s.processing[k := Some(o)])
  }

  function Apply(env: Env, s: State, a: Action): State
    requires Enabled(env, s, a)
  {
    match a
    case Create(k, request) => Store(s, k, request, {})
    case Delete(k) => s.(objects := s.objects - {k}, history := s.history + [Entry(k, |s.history|, None)])
    case Touch(k) => Store(s, k, s.objects[k].request, s.objects[k].conditions + {Ready})
    case Sync(v) => s.(cache := s.cache[s.history[v].key := s.history[v]])
    case Notify(k) =>
      if Cached(s, k).Some? && Passes(env, Cached(s, k).value) then s.(dirty := s.dirty + {k}) else s
    case Dequeue(k) => s.(dirty := s.dirty - {k}, processing := s.processing[k := None])
    case Read(k, ok) => ApplyRead(s, k, ok)
    case Write(k, config, ok) => ApplyWrite(env, s, k, s.processing[k].value, config, ok)
    case Restart => s.(cache := map[], dirty := {}, processing := map[])
  }

  const EMPTY := State(map[], [], map[], {}, map[])

  predicate Runs(env: Env, s: State, actions: seq<Action>)
    decreases |actions|
  {
    actions == [] || (Enabled(env, s, actions[0]) && Runs(env, Apply(env, s, actions[0]), actions[1..]))
  }

  function After(env: Env, s: State, actions: seq<Action>): State
    requires Runs(env, s, actions)
    decreases |actions|
  {
    if actions == [] then s else After(env, Apply(env, s, actions[0]), actions[1..])
  }

  /** Some run from the empty cluster leads to the state. */
  ghost predicate Reachable(env: Env, s: State) {
    exists actions :: Runs(env, EMPTY, actions) && After(env, EMPTY, actions) == s
  }

  lemma ReachEmpty(env: Env)
    ensures Reachable(env, EMPTY)
  {
    assert Runs(env, EMPTY, []) && After(env, EMPTY, []) == EMPTY;
  }

  lemma {:induction false} RunsSnoc(env: Env, s: State, actions: seq<Action>, a: Action)
    requires Runs(env, s, actions) && Enabled(env, After(env, s, actions), a)
    ensures Runs(env, s, actions + [a]) && After(env, s, actions + [a]) == Apply(env, After(env, s, actions), a)
    decreases |actions|
  {
    hide Apply, Enabled;
    if actions == [] {
      assert [a][1..] == [] && actions + [a] == [a];
    } else {
      assert (actions + [a])[1..] == actions[1..] + [a];
      RunsSnoc(env, Apply(env, s, actions[0]), actions[1..], a);
    }
  }

  lemma ReachStep(env: Env, s: State, a: Action)
    requires Reachable(env, s) && Enabled(env, s, a)
    ensures Reachable(env, Apply(env, s, a))
  {
    hide Apply, Enabled;
    var actions :| Runs(env, EMPTY, actions) && After(env, EMPTY, actions) == s;
    RunsSnoc(env, EMPTY, actions, a);
  }

  // ---------- The history explains everything ----------

  /** The object was stored under the key at its version. */
  predicate Recorded(s: State, k: Key, o: Object) {
    o.version < |s.history| && s.history[o.version] == Entry(k, o.version, Some(o))
  }

  /** Versions count the changes. */
  predicate Versioned(s: State) {
    forall i :: 0 <= i < |s.history| ==>
      s.history[i].version == i && (s.history[i].content.Some? ==> s.history[i].content.value.version == i)
  }

  /** A stored object is the last change of its key. */
  predicate Latest(s: State) {
    && (forall k :: k in s.objects ==> Recorded(s, k, s.objects[k]))
    && (forall i :: 0 <= i < |s.history| && s.history[i].key in s.objects ==> i <= s.objects[s.history[i].key].version)
  }

  /** The entry is the change of the key that its version says. */
  predicate Happened(s: State, k: Key, e: Entry) {
    e.key == k && e.version < |s.history| && s.history[e.version] == e
  }

  /** Whatever is cached or being processed was stored at some time. */
  predicate Traceable(s: State) {
    && (forall k :: k in s.cache ==> Happened(s, k, s.cache[k]))
    && (forall k :: k in s.processing && s.processing[k].Some? ==> Recorded(s, k, s.processing[k].value))
  }

  predicate WellFormed(s: State) {
    Versioned(s) && Latest(s) && Traceable(s)
  }

  lemma StepVersioned(env: Env, s: State, a: Action)
    requires Versioned(s) && Enabled(env, s, a)
    ensures Versioned(Apply(env, s, a)) && s.history <= Apply(env, s, a).history
  {
    hide Decide, Passes;
  }

  /** The actions that change what the API server stores. */
  predicate Stores(a: Action) {
    a.Create? || a.Delete? || a.Touch? || a.Write?
  }

  /** The others leave it alone. */
  lemma QuietStep(env: Env, s: State, a: Action)
    requires Enabled(env, s, a) && !Stores(a)
    ensures Apply(env, s, a).objects == s.objects && Apply(env, s, a).history == s.history
  {
    hide Passes, Cached;
  }

  lemma StoreLatest(s: State, k: Key, request: Request, conditions: set<Condition>)
    requires Versioned(s) && Latest(s)
    ensures Latest(Store(s, k, request, conditions))
  {
  }

  lemma StepLatest(env: Env, s: State, a: Action)
    requires Versioned(s) && Latest(s) && Enabled(env, s, a)
    ensures Latest(Apply(env, s, a))
  {
    hide Decide, Passes, Cached, Store;
    match a
    case Create(k, request) => StoreLatest(s, k, request, {});
    case Touch(k) => StoreLatest(s, k, s.objects[k].request, s.objects[k].conditions + {Ready});
    case Write(k, config, _) =>
      var o := s.processing[k].value;
      StoreLatest(s, k, o.request, o.conditions + {Decide(env.options, o.request, config)});
    case Delete(_) =>
    case _ => QuietStep(env, s, a);
  }

  /** A cached object was stored. */
  lemma CachedRecorded(s: State, k: Key)
    requires Versioned(s) && Traceable(s) && Cached(s, k).Some?
    ensures Recorded(s, k, Cached(s, k).value)
  {
  }

  /** A longer history explains what a shorter one did. */
  lemma StillTraceable(s: State, t: State)
    requires Traceable(s) && s.history <= t.history && t.cache == s.cache
    requires forall k :: k in t.processing && t.processing[k].Some? ==>
      k in s.processing && t.processing[k] == s.processing[k]
    ensures Traceable(t)
  {
  }

  lemma StepTraceable(env: Env, s: State, a: Action)
    requires Versioned(s) && Traceable(s) && Enabled(env, s, a)
    ensures Traceable(Apply(env, s, a))
  {
    hide Decide, Passes, Cached;
    if Stores(a) {
      hide Traceable;
      StillTraceable(s, Apply(env, s, a));
    } else if a.Read? && Cached(s, a.key).Some? {
      CachedRecorded(s, a.key);
    }
  }

  lemma StepWellFormed(env: Env, s: State, a: Action)
    requires WellFormed(s) && Enabled(env, s, a)
    ensures WellFormed(Apply(env, s, a)) && s.history <= Apply(env, s, a).history
  {
    hide Apply, Enabled, Versioned, Latest, Traceable;
    StepVersioned(env, s, a);
    StepLatest(env, s, a);
    StepTraceable(env, s, a);
  }

  // ---------- One decision per request ----------

  /** Some configuration leads to the decision. */
  predicate Justified(env: Env, request: Request, decision: Condition) {
    exists c :: c in env.configs && Decide(env.options, request, c) == decision
  }

  predicate SoundObject(env: Env, o: Object) {
    && (Approved in o.conditions ==> Justified(env, o.request, Approved))
    && (Denied in o.conditions ==> Justified(env, o.request, Denied))
  }

  /** Every decision ever stored is justified. */
  predicate Sound(env: Env, s: State) {
    forall e :: e in s.history && e.content.Some? ==> SoundObject(env, e.content.value)
  }

  lemma StepSound(env: Env, s: State, a: Action)
    requires WellFormed(s) && Sound(env, s) && Enabled(env, s, a)
    ensures Sound(env, Apply(env, s, a))
  {
    hide Decide, Passes;
  }

  lemma {:induction false} RunSound(env: Env, s: State, actions: seq<Action>)
    requires WellFormed(s) && Sound(env, s) && Runs(env, s, actions)
    ensures WellFormed(After(env, s, actions)) && Sound(env, After(env, s, actions))
    decreases |actions|
  {
    hide Apply, Enabled, WellFormed, Sound;
    if actions != [] {
      StepWellFormed(env, s, actions[0]);
      StepSound(env, s, actions[0]);
      RunSound(env, Apply(env, s, actions[0]), actions[1..]);
    }
  }

  /** All configurations lead to the same decision. An annotated request is always steady. */
  predicate Steady(env: Env, request: Request) {
    forall c, d :: c in env.configs && d in env.configs ==>
      Decide(env.options, request, c) == Decide(env.options, request, d)
  }

  /**
   Over every interleaving of creations, deletions, other status writes, cache updates, events, re-queues,
   reads, writes and restarts, a steady request never carries both conditions, and an annotated request
   carries Approved only if the evaluator accepts it and Denied only if it does not.
   */
  lemma OneDecision(env: Env, s: State, k: Key)
    requires Reachable(env, s) && k in s.objects
    ensures var o := s.objects[k];
      && (Steady(env, o.request) ==> !(Approved in o.conditions && Denied in o.conditions))
      && (o.request.annotated && Approved in o.conditions ==> Evaluate(env.options, o.request.spec).Pass?)
      && (o.request.annotated && Denied in o.conditions ==> Evaluate(env.options, o.request.spec).Fail?)
  {
    hide Evaluate, Runs, After;
    var actions :| Runs(env, EMPTY, actions) && After(env, EMPTY, actions) == s;
    RunSound(env, EMPTY, actions);
    assert Recorded(s, k, s.objects[k]);
  }

  /** Some URI of the signing request has the scheme of a SPIFFE ID. */
  ghost predicate NamesSpiffe(request: Request) {
    request.spec.request.Some? && exists uri :: uri in request.spec.request.value.uris && uri.scheme == "spiffe"
  }

  /**
   Which way unannotated requests go. One that carries a SPIFFE URI, or names the issuer of every
   configuration, is never approved; one that carries none and names the issuer of no configuration is
   never denied.
   */
  lemma UnannotatedDecision(env: Env, s: State, k: Key)
    requires Reachable(env, s) && k in s.objects && !s.objects[k].request.annotated
    ensures var o := s.objects[k];
      && (Approved in o.conditions ==>
            !NamesSpiffe(o.request) && exists c :: c in env.configs && c.issuerRef != o.request.issuerRef)
      && (Denied in o.conditions ==>
            NamesSpiffe(o.request) || exists c :: c in env.configs && c.issuerRef == o.request.issuerRef)
  {
    hide Evaluate, Runs, After;
    var actions :| Runs(env, EMPTY, actions) && After(env, EMPTY, actions) == s;
    RunSound(env, EMPTY, actions);
    assert Recorded(s, k, s.objects[k]);
  }

  predicate HasBoth(s: State, k: Key, request: Request) {
    && k in s.objects && s.objects[k].request == request
    && Approved in s.objects[k].conditions && Denied in s.objects[k].conditions
  }

  ghost predicate BothPossible(env: Env, request: Request) {
    exists s, k :: Reachable(env, s) && HasBoth(s, k, request)
  }

  /**
   The state reached as follows, by a cache that only moves forward. An annotated request is queued; its key
   is dequeued, and queued again by a further event while it is being processed. The request is deleted, the
   key re-used, the cache catches up, and the first pass decides the new request. The key is still queued.
   */
  function Reused(env: Env, request: Request, c: Config): State {
    var k := "key";
    var o0 := Object(0, request.(annotated := true), {});
    var o2 := Object(2, request, {});
    var o3 := Object(3, request, {Decide(env.options, request, c)});
    var e0, e1, e2, e3 := Entry(k, 0, Some(o0)), Entry(k, 1, None), Entry(k, 2, Some(o2)), Entry(k, 3, Some(o3));
    State(map[k := o3], [e0, e1, e2, e3], map[k := e2], {k}, map[])
  }

  /** The annotated request is being processed, and queued once more. */
  lemma QueuedTwice(env: Env, o: Object)
    requires o.version == 0 && o.conditions == {} && o.request.annotated
    ensures var e := Entry("key", 0, Some(o));
      Reachable(env, State(map["key" := o], [e], map["key" := e], {"key"}, map["key" := None]))
  {
    hide Reachable;
    var k, e := "key", Entry("key", 0, Some(o));
    ReachEmpty(env);
    ReachStep(env, EMPTY, Create(k, o.request));
    var s1 := State(map[k := o], [e], map[], {}, map[]);
    assert Apply(env, EMPTY, Create(k, o.request)) == s1;
    ReachStep(env, s1, Sync(0));
    var s2 := s1.(cache := map[k := e]);
    assert Apply(env, s1, Sync(0)) == s2;
    ReachStep(env, s2, Notify(k));
    var s3 := s2.(dirty := {k});
    assert Apply(env, s2, Notify(k)) == s3;
    ReachStep(env, s3, Dequeue(k));
    var s4 := s2.(processing := map[k := None]);
    assert Apply(env, s3, Dequeue(k)) == s4;
    ReachStep(env, s4, Notify(k));
    assert Apply(env, s4, Notify(k)) == s4.(dirty := {k});
  }

  lemma ReusedReachable(env: Env, request: Request, c: Config)
    requires c in env.configs
    ensures Reachable(env, Reused(env, request, c))
  {
    hide Decide, Reachable;
    var k := "key";
    var o0, o2 := Object(0, request.(annotated := true), {}), Object(2, request, {});
    var e0, e1, e2 := Entry(k, 0, Some(o0)), Entry(k, 1, None), Entry(k, 2, Some(o2));
    QueuedTwice(env, o0);
    var s0 := State(map[k := o0], [e0], map[k := e0], {k}, map[k := None]);
    ReachStep(env, s0, Delete(k));
    var s1 := s0.(objects := map[], history := [e0, e1]);
    assert Apply(env, s0, Delete(k)) == s1;
    ReachStep(env, s1, Create(k, request));
    var s2 := s1.(objects := map[k := o2], history := [e0, e1, e2]);
    assert Apply(env, s1, Create(k, request)) == s2;
    ReachStep(env, s2, Sync(2));
    var s3 := s2.(cache := map[k := e2]);
    assert Apply(env, s2, Sync(2)) == s3;
    ReachStep(env, s3, Read(k, true));
    var s4 := s3.(processing := map[k := Some(o2)]);
    assert Apply(env, s3, Read(k, true)) == s4;
    ReachStep(env, s4, Write(k, c, true));
    var d := Decide(env.options, request, c);
    assert {} + {d} == {d};
    assert Apply(env, s4, Write(k, c, true)) == Reused(env, request, c);
  }

  /** The second pass reads the decided request and decides it again, under another configuration. */
  lemma UnsteadyCanBeBoth(env: Env, request: Request, c: Config, d: Config)
    requires c in env.configs && d in env.configs
    requires Decide(env.options, request, c) != Decide(env.options, request, d)
    ensures BothPossible(env, request)
  {
    hide Evaluate, Reachable;
    var k := "key";
    ReusedReachable(env, request, c);
    var s := Reused(env, request, c);
    var o := s.objects[k];
    var e := Entry(k, 3, Some(o));
    ReachStep(env, s, Sync(3));
    var s1 := s.(cache := map[k := e]);
    assert Apply(env, s, Sync(3)) == s1;
    ReachStep(env, s1, Dequeue(k));
    var s2 := s1.(dirty := {}, processing := map[k := None]);
    assert Apply(env, s1, Dequeue(k)) == s2;
    ReachStep(env, s2, Read(k, true));
    var s3 := s2.(processing := map[k := Some(o)]);
    assert Apply(env, s2, Read(k, true)) == s3;
    ReachStep(env, s3, Write(k, d, true));
    var end := Apply(env, s3, Write(k, d, true));
    assert HasBoth(end, k, request);
  }

  /** Configurations differ only on unannotated requests without SPIFFE URI that name the issuer of some of them. */
  lemma SteadyExactly(env: Env, request: Request)
    ensures Steady(env, request)
       <==> || request.annotated || HasSpiffeUri(request)
            || (forall c, d :: c in env.configs && d in env.configs ==>
                  (request.issuerRef == c.issuerRef <==> request.issuerRef == d.issuerRef))
  {
    hide Evaluate;
  }

  /**
   Both conditions can end up on one request exactly when it is unannotated, carries no SPIFFE URI, and
   the runtime configuration names its issuer at one time and another issuer at another.
   */
  lemma BothPossibleExactly(env: Env, request: Request)
    ensures BothPossible(env, request)
       <==> && !request.annotated && !HasSpiffeUri(request)
            && exists c, d :: c in env.configs && d in env.configs
                              && request.issuerRef == c.issuerRef && request.issuerRef != d.issuerRef
  {
    hide Decide, Runs, After;
    SteadyExactly(env, request);
    if !Steady(env, request) {
      var c, d :| c in env.configs && d in env.configs
                  && Decide(env.options, request, c) != Decide(env.options, request, d);
      UnsteadyCanBeBoth(env, request, c, d);
    }
    if s, k :| Reachable(env, s) && HasBoth(s, k, request) {
      OneDecision(env, s, k);
    }
  }

  // ---------- The auto-approval gate ----------

  /** The request the action creates under the key, if it does. */
  function CreatedBy(a: Action, k: Key): seq<Request> {
    if a.Create? && a.key == k then [a.request] else []
  }

  /** The requests created under the key, in order. */
  function CreatesUnder(actions: seq<Action>, k: Key): seq<Request> {
    if actions == [] then [] else CreatedBy(actions[0], k) + CreatesUnder(actions[1..], k)
  }

  predicate DecidedAt(s: State, k: Key) {
    k in s.objects && Decided(s.objects[k])
  }

  predicate NoneAnnotated(creates: seq<Request>) {
    forall r :: r in creates ==> !r.annotated
  }

  /** None of the requests is for this controller: it is not annotated, and others are not processed. */
  predicate NoneConcerns(env: Env, creates: seq<Request>) {
    forall r :: r in creates ==> !r.annotated && !env.autoApprove
  }

  /** The key has never been queued, and nothing was stored under it but undecided, unannotated requests. */
  predicate Untouched(s: State, k: Key) {
    && k !in s.dirty && k !in s.processing
    && forall i :: 0 <= i < |s.history| && s.history[i].key == k && s.history[i].content.Some? ==>
         var o := s.history[i].content.value; !o.request.annotated && !Decided(o)
  }

  /** The filter lets nothing unannotated through. */
  lemma UntouchedQueue(env: Env, s: State, a: Action, k: Key)
    requires !env.autoApprove && WellFormed(s) && Enabled(env, s, a) && Untouched(s, k)
    ensures k !in Apply(env, s, a).dirty && k !in Apply(env, s, a).processing
  {
    hide Decide, Versioned, Latest;
  }

  lemma StepUntouched(env: Env, s: State, a: Action, k: Key)
    requires !env.autoApprove && WellFormed(s) && Enabled(env, s, a) && Untouched(s, k)
    requires NoneAnnotated(CreatedBy(a, k))
    ensures Untouched(Apply(env, s, a), k)
  {
    hide Decide, Passes, Versioned, Traceable;
    UntouchedQueue(env, s, a, k);
    assert a.Create? && a.key == k ==> a.request in CreatedBy(a, k);
    if !Stores(a) { QuietStep(env, s, a); }
  }

  lemma {:induction false} RunUntouched(env: Env, s: State, actions: seq<Action>, k: Key)
    requires !env.autoApprove && WellFormed(s) && Untouched(s, k)
    requires Runs(env, s, actions) && NoneAnnotated(CreatesUnder(actions, k))
    ensures !DecidedAt(After(env, s, actions), k)
    decreases |actions|
  {
    hide Apply, Enabled, Decided, CreatedBy;
    if actions == [] {
      assert k in s.objects ==> Recorded(s, k, s.objects[k]);
    } else {
      hide WellFormed, Untouched;
      StepUntouched(env, s, actions[0], k);
      StepWellFormed(env, s, actions[0]);
      RunUntouched(env, Apply(env, s, actions[0]), actions[1..], k);
    }
  }

  /** Some continuation creates these requests under the key and ends with the last of them decided. */
  ghost predicate CanDecide(env: Env, s: State, k: Key, creates: seq<Request>) {
    exists actions ::
      Runs(env, s, actions) && CreatesUnder(actions, k) == creates && DecidedAt(After(env, s, actions), k)
  }

  lemma StepThenDecide(env: Env, s: State, a: Action, k: Key, creates: seq<Request>)
    requires Enabled(env, s, a) && CanDecide(env, Apply(env, s, a), k, creates)
    ensures CanDecide(env, s, k, CreatedBy(a, k) + creates)
  {
    hide Apply, Enabled, DecidedAt, CreatedBy;
    var t := Apply(env, s, a);
    var rest :| Runs(env, t, rest) && CreatesUnder(rest, k) == creates && DecidedAt(After(env, t, rest), k);
    var actions := [a] + rest;
    assert actions[1..] == rest;
    assert Runs(env, s, actions) && After(env, s, actions) == After(env, t, rest);
  }

  /** An action that creates nothing under the key. */
  lemma QuietThenDecide(env: Env, s: State, a: Action, k: Key, creates: seq<Request>)
    requires Enabled(env, s, a) && !a.Create? && CanDecide(env, Apply(env, s, a), k, creates)
    ensures CanDecide(env, s, k, creates)
  {
    hide Apply, Enabled, CanDecide;
    StepThenDecide(env, s, a, k, creates);
    assert [] + creates == creates;
  }

  /** The key is being processed and the cache shows the stored object: it is decided. */
  lemma CurrentDecides(env: Env, s: State, k: Key, c: Config)
    requires k in s.objects && Cached(s, k) == Some(s.objects[k]) && c in env.configs
    requires k in s.processing && s.processing[k].None?
    ensures CanDecide(env, s, k, [])
  {
    hide Evaluate;
    var t := s.(processing := s.processing[k := Some(s.objects[k])]);
    var u := Apply(env, t, Write(k, c, true));
    assert DecidedAt(u, k);
    assert Runs(env, u, []) && CreatesUnder([], k) == [] && After(env, u, []) == u;
    QuietThenDecide(env, t, Write(k, c, true), k, []);
    QuietThenDecide(env, s, Read(k, true), k, []);
  }

  /** Once a key is being processed, the last request created under it can be decided, whatever it is. */
  lemma {:induction false} ProcessedDecides(env: Env, s: State, k: Key, creates: seq<Request>, c: Config)
    requires WellFormed(s) && k in s.objects && c in env.configs
    requires k in s.processing && s.processing[k].None?
    ensures CanDecide(env, s, k, creates)
    decreases |creates|
  {
    hide Evaluate, Decide, CanDecide;
    if creates == [] {
      var v := s.objects[k].version;
      if Cached(s, k) != Some(s.objects[k]) {
        var t := Apply(env, s, Sync(v));
        CurrentDecides(env, t, k, c);
        QuietThenDecide(env, s, Sync(v), k, []);
      } else {
        CurrentDecides(env, s, k, c);
      }
    } else {
      var t := Apply(env, s, Delete(k));
      StepWellFormed(env, s, Delete(k));
      var u := Apply(env, t, Create(k, creates[0]));
      StepWellFormed(env, t, Create(k, creates[0]));
      ProcessedDecides(env, u, k, creates[1..], c);
      StepThenDecide(env, t, Create(k, creates[0]), k, creates[1..]);
      assert creates == [creates[0]] + creates[1..];
      QuietThenDecide(env, s, Delete(k), k, creates);
    }
  }

  /** A request that concerns the controller, once in the cache, gets its key into processing. */
  lemma ConcerningDecides(env: Env, s: State, k: Key, creates: seq<Request>, c: Config)
    requires WellFormed(s) && k in s.objects && c in env.configs && k !in s.processing
    requires (s.objects[k].request.annotated || env.autoApprove) && !Decided(s.objects[k])
    requires k in s.cache ==> s.cache[k].version < s.objects[k].version
    ensures CanDecide(env, s, k, creates)
  {
    hide Evaluate, Decide, CanDecide, WellFormed;
    assert Recorded(s, k, s.objects[k]) by { StoredRecorded(s, k); }
    var sync := Sync(s.objects[k].version);
    var s1 := Apply(env, s, sync);
    StepWellFormed(env, s, sync);
    var s2 := Apply(env, s1, Notify(k));
    StepWellFormed(env, s1, Notify(k));
    var s3 := Apply(env, s2, Dequeue(k));
    StepWellFormed(env, s2, Dequeue(k));
    ProcessedDecides(env, s3, k, creates, c);
    QuietThenDecide(env, s2, Dequeue(k), k, creates);
    QuietThenDecide(env, s1, Notify(k), k, creates);
    QuietThenDecide(env, s, sync, k, creates);
  }

  lemma StoredRecorded(s: State, k: Key)
    requires WellFormed(s) && k in s.objects
    ensures Recorded(s, k, s.objects[k])
  {
  }

  /** A stored request is fresh to a cache that has only seen what came before. */
  lemma CreatedIsNew(env: Env, s: State, k: Key, request: Request)
    requires WellFormed(s) && k !in s.objects && k in s.cache
    ensures s.cache[k].version < Apply(env, s, Create(k, request)).objects[k].version
  {
  }

  /** Requests are created and deleted in turn until the first that concerns the controller. */
  lemma {:induction false} SomeConcerningDecides(env: Env, s: State, k: Key, creates: seq<Request>, c: Config)
    requires WellFormed(s) && k !in s.objects && k !in s.processing && c in env.configs
    requires !NoneConcerns(env, creates)
    ensures CanDecide(env, s, k, creates)
    decreases |creates|
  {
    hide Evaluate, Decide, CanDecide, WellFormed;
    var create := Create(k, creates[0]);
    var t := Apply(env, s, create);
    StepWellFormed(env, s, create);
    if creates[0].annotated || env.autoApprove {
      if k in s.cache { CreatedIsNew(env, s, k, creates[0]); }
      ConcerningDecides(env, t, k, creates[1..], c);
    } else {
      var u := Apply(env, t, Delete(k));
      StepWellFormed(env, t, Delete(k));
      assert exists r :: r in creates[1..] && r.annotated;
      SomeConcerningDecides(env, u, k, creates[1..], c);
      QuietThenDecide(env, t, Delete(k), k, creates[1..]);
    }
    StepThenDecide(env, s, create, k, creates[1..]);
    assert creates == [creates[0]] + creates[1..];
  }

  /** Without a creation nothing is stored under the key. */
  lemma NothingStored(env: Env, s: State, actions: seq<Action>, k: Key)
    requires WellFormed(s) && Runs(env, s, actions) && Among(s, k, []) && CreatesUnder(actions, k) == []
    ensures !DecidedAt(After(env, s, actions), k)
  {
    assert [] + CreatesUnder(actions, k) == [];
    if k in After(env, s, actions).objects {
      StoredWasCreated(env, s, actions, k, []);
    }
  }

  /** In no run with these creations under the key does the object there end up decided. */
  ghost predicate GateHolds(env: Env, k: Key, creates: seq<Request>) {
    forall actions :: Runs(env, EMPTY, actions) && CreatesUnder(actions, k) == creates ==>
      !DecidedAt(After(env, EMPTY, actions), k)
  }

  /**
   The requests created under a key are left alone in every run exactly when auto-approval is off and none of
   them is annotated, or there are none. Other keys do not matter. One annotated request is enough to queue
   the key, and whatever is stored under it when the queue gets there is decided.
   */
  lemma GateExact(env: Env, k: Key, creates: seq<Request>)
    requires env.configs != {}
    ensures GateHolds(env, k, creates) <==> forall r :: r in creates ==> !r.annotated && !env.autoApprove
  {
    hide Apply, Enabled, Runs, After, DecidedAt;
    if NoneConcerns(env, creates) {
      forall actions | Runs(env, EMPTY, actions) && CreatesUnder(actions, k) == creates
        ensures !DecidedAt(After(env, EMPTY, actions), k)
      {
        if creates == [] {
          NothingStored(env, EMPTY, actions, k);
        } else {
          assert creates[0] in creates;
          RunUntouched(env, EMPTY, actions, k);
        }
      }
    } else {
      var c :| c in env.configs;
      SomeConcerningDecides(env, EMPTY, k, creates, c);
    }
  }

  /** Whatever is or was stored under the key is one of these requests. */
  predicate Among(s: State, k: Key, requests: seq<Request>) {
    forall i :: 0 <= i < |s.history| && s.history[i].key == k && s.history[i].content.Some? ==>
      s.history[i].content.value.request in requests
  }

  lemma StepAmong(env: Env, s: State, a: Action, k: Key, requests: seq<Request>)
    requires WellFormed(s) && Enabled(env, s, a) && Among(s, k, requests)
    ensures Among(Apply(env, s, a), k, requests + CreatedBy(a, k))
  {
    hide Decide, Passes, Cached;
  }

  /** A stored request was created before, or is created by the run. */
  lemma {:induction false} StoredWasCreated(env: Env, s: State, actions: seq<Action>, k: Key, requests: seq<Request>)
    requires WellFormed(s) && Runs(env, s, actions) && Among(s, k, requests)
    requires k in After(env, s, actions).objects
    ensures After(env, s, actions).objects[k].request in requests + CreatesUnder(actions, k)
    decreases |actions|
  {
    hide Apply, Enabled, CreatedBy;
    if actions == [] {
      assert Recorded(s, k, s.objects[k]);
    } else {
      hide WellFormed, Among;
      StepAmong(env, s, actions[0], k, requests);
      StepWellFormed(env, s, actions[0]);
      StoredWasCreated(env, Apply(env, s, actions[0]), actions[1..], k, requests + CreatedBy(actions[0], k));
      assert requests + CreatedBy(actions[0], k) + CreatesUnder(actions[1..], k)
          == requests + (CreatedBy(actions[0], k) + CreatesUnder(actions[1..], k));
    }
  }

  /**
   With auto-approval off, no unannotated request is ever approved or denied, in any run in which the
   requests created under its own key agree on having the annotation.
   */
  lemma AutoApprovalGate(env: Env, actions: seq<Action>, k: Key)
    requires !env.autoApprove && Runs(env, EMPTY, actions)
    requires forall q, r :: q in CreatesUnder(actions, k) && r in CreatesUnder(actions, k) ==>
      q.annotated == r.annotated
    requires k in After(env, EMPTY, actions).objects && !After(env, EMPTY, actions).objects[k].request.annotated
    ensures !Decided(After(env, EMPTY, actions).objects[k])
  {
    hide Runs, After, Apply, Enabled;
    StoredWasCreated(env, EMPTY, actions, k, []);
    assert [] + CreatesUnder(actions, k) == CreatesUnder(actions, k);
    RunUntouched(env, EMPTY, actions, k);
  }

  /** A key that is queued for an annotated request and then re-used slips through the gate. */
  lemma ReusedKeyPassesGate(env: Env, request: Request, c: Config)
    requires !env.autoApprove && !request.annotated && c in env.configs
    ensures exists s, k :: Reachable(env, s) && k in s.objects && s.objects[k].request == request
                           && (Approved in s.objects[k].conditions || Denied in s.objects[k].conditions)
  {
    hide Evaluate, Reachable;
    ReusedReachable(env, request, c);
    assert "key" in Reused(env, request, c).objects;
  }

  // ---------- Nothing is dropped from the queue ----------

  predicate Queued(s: State, k: Key) {
    k in s.dirty || k in s.processing
  }

  /**
   A queued key leaves the queue exactly when its request is found to be gone, or its decision is written, or
   the process restarts: a failed read, a failed write and a conflict put it back.
   */
  lemma StepDequeuesExactly(env: Env, s: State, a: Action, k: Key)
    requires Enabled(env, s, a) && Queued(s, k)
    ensures Queued(Apply(env, s, a), k)
       <==> && !a.Restart?
            && (k in s.dirty
                || (&& !(a == Read(k, true) && Cached(s, k).None?)
                    && !(a.Write? && a.key == k && a.ok && k in s.objects
                         && s.objects[k].version == s.processing[k].value.version)))
  {
    hide Decide, Passes;
  }

  // ---------- Decided requests are left alone ----------

  predicate SameDecision(o: Object, p: Object) {
    && o.request == p.request
    && (Approved in o.conditions <==> Approved in p.conditions)
    && (Denied in o.conditions <==> Denied in p.conditions)
  }

  /** Decided like this from the given version on. */
  ghost predicate DecidedSince(s: State, k: Key, o: Object, version: nat) {
    && k in s.objects && SameDecision(s.objects[k], o)
    && forall e :: e in s.history && e.key == k && e.version >= version ==>
         e.content.Some? && SameDecision(e.content.value, o)
  }

  /** The key is at rest: not queued, and every version the cache has yet to leave behind is decided like this. */
  ghost predicate Settled(s: State, k: Key, o: Object) {
    && k !in s.dirty && k !in s.processing && k in s.cache
    && DecidedSince(s, k, o, s.cache[k].version)
  }

  lemma StepDecidedSince(env: Env, s: State, a: Action, k: Key, o: Object, version: nat)
    requires WellFormed(s) && Enabled(env, s, a) && DecidedSince(s, k, o, version)
    requires k !in s.processing && !(a.Delete? && a.key == k)
    ensures DecidedSince(Apply(env, s, a), k, o, version)
  {
    hide Decide, Passes, Traceable;
  }

  /** The filter keeps the key off the queue, and the cache moves forward only. */
  lemma StepStaysOff(env: Env, s: State, a: Action, k: Key, o: Object)
    requires WellFormed(s) && Enabled(env, s, a) && Settled(s, k, o) && Decided(o) && !a.Restart?
    ensures var t := Apply(env, s, a);
      && k !in t.dirty && k !in t.processing
      && k in t.cache && t.cache[k].version >= s.cache[k].version
  {
    hide Decide, Latest;
  }

  lemma StepSettled(env: Env, s: State, a: Action, k: Key, o: Object)
    requires WellFormed(s) && Enabled(env, s, a) && Settled(s, k, o) && Decided(o)
    requires !a.Restart? && !(a.Delete? && a.key == k)
    ensures Settled(Apply(env, s, a), k, o)
  {
    hide Apply, Enabled, WellFormed, Decided, SameDecision;
    StepDecidedSince(env, s, a, k, o, s.cache[k].version);
    StepStaysOff(env, s, a, k, o);
  }

  lemma {:induction false} RunSettled(env: Env, s: State, actions: seq<Action>, k: Key, o: Object)
    requires WellFormed(s) && Runs(env, s, actions) && Settled(s, k, o) && Decided(o)
    requires forall a :: a in actions ==> !a.Restart? && !(a.Delete? && a.key == k)
    ensures Settled(After(env, s, actions), k, o)
    decreases |actions|
  {
    hide Apply, Enabled, WellFormed, Settled, Decided;
    if actions != [] {
      StepSettled(env, s, actions[0], k, o);
      StepWellFormed(env, s, actions[0]);
      RunSettled(env, Apply(env, s, actions[0]), actions[1..], k, o);
    }
  }

  /**
   Once a decided request is in the cache as it is stored, and its key is neither queued nor processed, its
   decision is final: whatever happens short of its deletion or a restart, no event gets it past the filter.
   */
  lemma DecidedIsFinal(env: Env, before: seq<Action>, actions: seq<Action>, k: Key)
    requires Runs(env, EMPTY, before)
    requires var s := After(env, EMPTY, before);
      && k in s.objects && Decided(s.objects[k]) && Cached(s, k) == Some(s.objects[k])
      && k !in s.dirty && k !in s.processing
      && Runs(env, s, actions)
    requires forall a :: a in actions ==> !a.Restart? && !(a.Delete? && a.key == k)
    ensures var s := After(env, EMPTY, before); var end := After(env, s, actions);
      k in end.objects && SameDecision(end.objects[k], s.objects[k]) && k !in end.dirty && k !in end.processing
  {
    hide Runs, After, Apply, Enabled;
    RunWellFormed(env, EMPTY, before);
    var s := After(env, EMPTY, before);
    assert Recorded(s, k, s.objects[k]);
    assert Settled(s, k, s.objects[k]);
    RunSettled(env, s, actions, k, s.objects[k]);
  }

  lemma {:induction false} RunWellFormed(env: Env, s: State, actions: seq<Action>)
    requires WellFormed(s) && Runs(env, s, actions)
    ensures WellFormed(After(env, s, actions))
    decreases |actions|
  {
    hide Apply, Enabled, WellFormed;
    if actions != [] {
      StepWellFormed(env, s, actions[0]);
      RunWellFormed(env, Apply(env, s, actions[0]), actions[1..]);
    }
  }
}
