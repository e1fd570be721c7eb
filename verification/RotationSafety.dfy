/** No rotation is lost, exactly when no keypair write lands with an outdated bundle behind the last pass. */
module RotationSafety {
  import opened Volumes
  import opened Rotation

  /** The pod sees something other than the current bundle. */
  predicate Stale(cfg: Config, s: State, v: VolumeId) {
    v in s.store && OutOfDate(s.store[v], cfg.driver.ca, s.bundle)
  }

  /** A pass is still to be started, or is about to list every volume. */
  predicate Pending(s: State) {
    || s.sends > 0 || s.token > 0 || s.sleeping > 0 || s.posting > 0
    || s.loop.Holding? || s.loop.Blocked? || s.loop.Listing?
  }

  /** The current pass has read this volume's CA file and will find it equal to the bundle. */
  predicate Cleared(s: State, v: VolumeId) {
    AtVolume(s) && s.loop.todo[0] == v && s.loop.at.CaRead? && s.loop.at.ca == s.bundle && v !in s.loop.todo[1..]
  }

  /** The current pass has yet to compare or write the volume's CA file. */
  predicate Ahead(s: State, v: VolumeId) {
    s.loop.Visiting? && v in s.loop.todo && !Cleared(s, v)
  }

  /** Some outstanding signal, or the rest of the current pass, will still bring the volume up to date. */
  predicate Owed(s: State, v: VolumeId) {
    Pending(s) || Ahead(s, v)
  }

  /** Every volume is current or will be visited. */
  ghost predicate Protected(cfg: Config, s: State) {
    forall v :: Stale(cfg, s, v) ==> Owed(s, v)
  }

  /** No signal anywhere and the loop waiting. */
  predicate Quiescent(s: State) {
    s.loop.Idle? && s.sends == 0 && s.token == 0 && s.sleeping == 0 && s.posting == 0
  }

  ghost predicate AllCurrent(cfg: Config, s: State) {
    forall v :: !Stale(cfg, s, v)
  }

  /** A keypair write stores a bundle read before the last change, and no pass will visit the volume again. */
  predicate LosingStore(s: State, a: Action) {
    && a.WriterStore? && a.ok && a.v in s.store
    && a.v in s.writers && s.writers[a.v].Fetched?
    && s.writers[a.v].ca != s.bundle
    && !Owed(s, a.v)
  }

  /** A step that writes no file and does not change the bundle keeps a volume as stale as it was. */
  lemma StepKeepsStale(cfg: Config, s: State, a: Action, v: VolumeId)
    requires Enabled(s, a) && Stale(cfg, Apply(cfg, s, a), v)
    requires !FromProvider(a) && !(a.WriterStore? && a.v == v) && !Commits(s, a, v)
    ensures Stale(cfg, s, v)
  {
  }

  /** A stale volume ahead of the pass stays ahead, or the pass fails and is repeated. */
  lemma VisitKeepsOwed(cfg: Config, s: State, ok: bool, v: VolumeId)
    requires WellFormed(s) && AtVolume(s) && cfg.driver.ca == cfg.manager.ca
    requires Owed(s, v) && Stale(cfg, ApplyVisit(cfg, s, ok), v)
    ensures Owed(ApplyVisit(cfg, s, ok), v)
  {
    assert v in s.loop.todo <==> v == s.loop.todo[0] || v in s.loop.todo[1..];
  }

  lemma StepKeepsOwed(cfg: Config, s: State, a: Action, v: VolumeId)
    requires WellFormed(s) && Enabled(s, a) && !s.loop.NotStarted?
    requires !Apply(cfg, s, a).cancelled
    requires cfg.driver.ca == cfg.manager.ca
    requires Owed(s, v) && Stale(cfg, Apply(cfg, s, a), v)
    ensures Owed(Apply(cfg, s, a), v)
  {
    hide ApplyVisit, FileSet;
    if a.Visit? { VisitKeepsOwed(cfg, s, a.ok, v); }
  }

  /**
   Every step of every goroutine keeps the protection, except exactly a losing store: that one always
   breaks it.
   */
  lemma StepKeepsProtectionExactly(cfg: Config, s: State, a: Action)
    requires WellFormed(s) && Enabled(s, a) && !s.loop.NotStarted?
    requires !Apply(cfg, s, a).cancelled
    requires cfg.driver.ca == cfg.manager.ca
    requires Protected(cfg, s)
    ensures Protected(cfg, Apply(cfg, s, a)) <==> !LosingStore(s, a)
  {
    var t := Apply(cfg, s, a);
    if LosingStore(s, a) {
      assert Stale(cfg, t, a.v) && !Owed(t, a.v);
    } else {
      hide Apply;
      forall v | Stale(cfg, t, v) ensures Owed(t, v) {
        if Owed(s, v) {
          StepKeepsOwed(cfg, s, a, v);
        } else if !Owed(t, v) {
          UnowedStepStale(cfg, s, a, v);
        }
      }
    }
  }

  /** A volume no signal covers can turn stale only by a losing store. */
  lemma UnowedStepStale(cfg: Config, s: State, a: Action, v: VolumeId)
    requires WellFormed(s) && Enabled(s, a) && !s.loop.NotStarted?
    requires cfg.driver.ca == cfg.manager.ca
    requires !Owed(s, v) && !LosingStore(s, a)
    requires Stale(cfg, Apply(cfg, s, a), v) && !Owed(Apply(cfg, s, a), v)
    ensures Stale(cfg, s, v)
  {
    if !FromProvider(a) && !(a.WriterStore? && a.v == v) && !Commits(s, a, v) {
      StepKeepsStale(cfg, s, a, v);
    }
  }

  // ---------- Whole runs ----------

  /** No step of the run is a losing store. */
  predicate NoLosingStore(cfg: Config, s: State, actions: seq<Action>)
    requires Runs(cfg, s, actions)
    decreases |actions|
  {
    actions == [] ||
    (!LosingStore(s, actions[0]) && NoLosingStore(cfg, Apply(cfg, s, actions[0]), actions[1..]))
  }

  /** Cancellation is final. */
  lemma {:induction false} CancelledStays(cfg: Config, s: State, actions: seq<Action>)
    requires Runs(cfg, s, actions) && s.cancelled
    ensures After(cfg, s, actions).cancelled
    decreases |actions|
  {
    if actions != [] {
      CancelledStays(cfg, Apply(cfg, s, actions[0]), actions[1..]);
    }
  }

  lemma StepStaysStarted(cfg: Config, s: State, a: Action)
    requires Enabled(s, a) && !s.loop.NotStarted?
    ensures !Apply(cfg, s, a).loop.NotStarted?
  {
    hide ApplyVisit;
  }

  lemma {:induction false} RunKeepsProtection(cfg: Config, s: State, actions: seq<Action>)
    requires cfg.driver.ca == cfg.manager.ca
    requires WellFormed(s) && !s.loop.NotStarted? && Protected(cfg, s)
    requires Runs(cfg, s, actions) && NoLosingStore(cfg, s, actions)
    requires !After(cfg, s, actions).cancelled
    ensures Protected(cfg, After(cfg, s, actions))
    decreases |actions|
  {
    hide Apply, Enabled, WellFormed, Protected, LosingStore;
    if actions != [] {
      var t := Apply(cfg, s, actions[0]);
      if t.cancelled { CancelledStays(cfg, t, actions[1..]); }
      StepWellFormed(cfg, s, actions[0]);
      StepStaysStarted(cfg, s, actions[0]);
      StepKeepsProtectionExactly(cfg, s, actions[0]);
      RunKeepsProtection(cfg, t, actions[1..]);
    }
  }

  /**
   No lost rotation. Take any run of the process in which a provider broadcasts a bundle after the
   subscription, and whatever follows: further changes in the middle of passes, passes that fail part-way,
   retries, volumes added, removed and written. If no keypair write after the broadcast is a losing store,
   then whenever all signals are used up and the loop waits, every written volume holds the current bundle.
   */
  lemma NoLostRotation(cfg: Config, s0: State, before: seq<Action>, news: Action, after: seq<Action>)
    requires cfg.driver.ca == cfg.manager.ca
    requires Init(s0) && Runs(cfg, s0, before)
    requires var s := After(cfg, s0, before);
      !s.loop.NotStarted? && Broadcasts(s, news) && Enabled(s, news)
    requires var t := Apply(cfg, After(cfg, s0, before), news);
      Runs(cfg, t, after) && NoLosingStore(cfg, t, after) && !After(cfg, t, after).cancelled
    ensures var end := After(cfg, Apply(cfg, After(cfg, s0, before), news), after);
      Quiescent(end) ==> AllCurrent(cfg, end)
  {
    var s := After(cfg, s0, before);
    RunWellFormed(cfg, s0, before);
    StepWellFormed(cfg, s, news);
    RunKeepsProtection(cfg, Apply(cfg, s, news), after);
  }

  // ---------- Which volumes are stale at rest ----------

  /** Stale, and nothing outstanding will bring it up to date. */
  predicate Lost(cfg: Config, s: State, v: VolumeId) {
    Stale(cfg, s, v) && !Owed(s, v)
  }

  /** The bundle is broadcast, a pass fails and is to be repeated, or the volume is removed or written afresh. */
  predicate Rescues(cfg: Config, s: State, a: Action, v: VolumeId)
    requires Enabled(s, a)
  {
    || Broadcasts(s, a)
    || Fails(cfg, s, a)
    || (a.Remove? && a.v == v)
    || (a.WriterStore? && a.ok && a.v == v && s.writers[v].ca == s.bundle)
  }

  /** A volume becomes lost by a losing store, and stays lost until it is rescued. */
  lemma StepLosesExactly(cfg: Config, s: State, a: Action, v: VolumeId)
    requires WellFormed(s) && Enabled(s, a) && !s.loop.NotStarted?
    requires !Apply(cfg, s, a).cancelled
    requires cfg.driver.ca == cfg.manager.ca
    ensures Lost(cfg, Apply(cfg, s, a), v)
       <==> (LosingStore(s, a) && a.v == v) || (Lost(cfg, s, v) && !Rescues(cfg, s, a, v))
  {
    var t := Apply(cfg, s, a);
    if Owed(s, v) {
      if Stale(cfg, t, v) { StepKeepsOwed(cfg, s, a, v); }
    } else if Stale(cfg, s, v) {
      LostStep(cfg, s, a, v);
    } else if Lost(cfg, t, v) && !LosingStore(s, a) {
      UnowedStepStale(cfg, s, a, v);
    }
  }

  /** The rest of the pass does not come back to a lost volume. */
  lemma LostVisit(cfg: Config, s: State, ok: bool, v: VolumeId)
    requires WellFormed(s) && AtVolume(s) && Lost(cfg, s, v)
    ensures Lost(cfg, ApplyVisit(cfg, s, ok), v) <==> !ApplyVisit(cfg, s, ok).loop.Idle?
  {
    assert v in s.loop.todo <==> v == s.loop.todo[0] || v in s.loop.todo[1..];
  }

  lemma LostStep(cfg: Config, s: State, a: Action, v: VolumeId)
    requires WellFormed(s) && Enabled(s, a) && !s.loop.NotStarted? && Lost(cfg, s, v)
    ensures Lost(cfg, Apply(cfg, s, a), v)
       <==> (LosingStore(s, a) && a.v == v) || !Rescues(cfg, s, a, v)
  {
    hide ApplyVisit;
    if a.Visit? { LostVisit(cfg, s, a.ok, v); }
  }

  predicate NoRescue(cfg: Config, s: State, actions: seq<Action>, v: VolumeId)
    requires Runs(cfg, s, actions)
    decreases |actions|
  {
    actions == [] ||
    (!Rescues(cfg, s, actions[0], v) && NoRescue(cfg, Apply(cfg, s, actions[0]), actions[1..], v))
  }

  /** Some losing store to the volume is followed by no rescue. */
  predicate LosesForGood(cfg: Config, s: State, actions: seq<Action>, v: VolumeId)
    requires Runs(cfg, s, actions)
    decreases |actions|
  {
    actions != [] &&
    var t := Apply(cfg, s, actions[0]);
    || (LosingStore(s, actions[0]) && actions[0].v == v && NoRescue(cfg, t, actions[1..], v))
    || LosesForGood(cfg, t, actions[1..], v)
  }

  lemma {:induction false} RunLosesExactly(cfg: Config, s: State, actions: seq<Action>, v: VolumeId)
    requires cfg.driver.ca == cfg.manager.ca
    requires WellFormed(s) && !s.loop.NotStarted? && Runs(cfg, s, actions)
    requires !After(cfg, s, actions).cancelled
    ensures Lost(cfg, After(cfg, s, actions), v)
       <==> LosesForGood(cfg, s, actions, v) || (Lost(cfg, s, v) && NoRescue(cfg, s, actions, v))
    decreases |actions|
  {
    hide Apply, Enabled, WellFormed, Lost, LosingStore, Rescues;
    if actions != [] {
      var t := Apply(cfg, s, actions[0]);
      if t.cancelled { CancelledStays(cfg, t, actions[1..]); }
      StepWellFormed(cfg, s, actions[0]);
      StepStaysStarted(cfg, s, actions[0]);
      StepLosesExactly(cfg, s, actions[0], v);
      RunLosesExactly(cfg, t, actions[1..], v);
    }
  }

  /**
   The rotation theorem as an equivalence. In any run after a broadcast to the manager, once all signals
   are used up and the loop waits, the stale volumes are exactly those with a losing store after which
   the bundle was not broadcast, no pass failed, and the volume was neither removed nor written afresh.
   */
  lemma StaleAtRestExactly(cfg: Config, s0: State, before: seq<Action>, news: Action, after: seq<Action>, v: VolumeId)
    requires cfg.driver.ca == cfg.manager.ca
    requires Init(s0) && Runs(cfg, s0, before)
    requires var s := After(cfg, s0, before);
      !s.loop.NotStarted? && Broadcasts(s, news) && Enabled(s, news)
    requires var t := Apply(cfg, After(cfg, s0, before), news);
      Runs(cfg, t, after) && !After(cfg, t, after).cancelled && Quiescent(After(cfg, t, after))
    ensures var t := Apply(cfg, After(cfg, s0, before), news);
      Stale(cfg, After(cfg, t, after), v) <==> LosesForGood(cfg, t, after, v)
  {
    var s := After(cfg, s0, before);
    RunWellFormed(cfg, s0, before);
    StepWellFormed(cfg, s, news);
    RunLosesExactly(cfg, Apply(cfg, s, news), after, v);
  }

  // ---------- A condition on schedules ----------

  /** No keypair write holds a bundle other than the current one. */
  predicate WritersFresh(s: State) {
    forall v :: v in s.writers && s.writers[v].Fetched? ==> s.writers[v].ca == s.bundle
  }

  /** The bundle never changes while a keypair write is between reading it and storing it. */
  predicate ChangesAvoidWriters(cfg: Config, s: State, actions: seq<Action>)
    requires Runs(cfg, s, actions)
    decreases |actions|
  {
    if actions == [] then true
    else
      && (Apply(cfg, s, actions[0]).bundle != s.bundle ==>
            forall v :: v in s.writers ==> !s.writers[v].Fetched?)
      && ChangesAvoidWriters(cfg, Apply(cfg, s, actions[0]), actions[1..])
  }

  /** If reading the bundle and storing it never straddle a change, no store is losing. */
  lemma {:induction false} AtomicWritersNeverLose(cfg: Config, s: State, actions: seq<Action>)
    requires Runs(cfg, s, actions) && WritersFresh(s) && ChangesAvoidWriters(cfg, s, actions)
    ensures NoLosingStore(cfg, s, actions)
    decreases |actions|
  {
    if actions != [] {
      var t := Apply(cfg, s, actions[0]);
      assert WritersFresh(t);
      AtomicWritersNeverLose(cfg, t, actions[1..]);
    }
  }

  /** The rotation theorem for schedules in which no bundle change falls into a keypair write. */
  lemma NoLostRotationWithAtomicWriters(cfg: Config, s0: State, before: seq<Action>, news: Action, after: seq<Action>)
    requires cfg.driver.ca == cfg.manager.ca
    requires Init(s0) && Runs(cfg, s0, before)
    requires var s := After(cfg, s0, before);
      !s.loop.NotStarted? && Broadcasts(s, news) && Enabled(s, news)
    requires var t := Apply(cfg, After(cfg, s0, before), news);
      WritersFresh(t) && Runs(cfg, t, after) && ChangesAvoidWriters(cfg, t, after) && !After(cfg, t, after).cancelled
    ensures var end := After(cfg, Apply(cfg, After(cfg, s0, before), news), after);
      Quiescent(end) ==> AllCurrent(cfg, end)
  {
    hide Runs, After;
    AtomicWritersNeverLose(cfg, Apply(cfg, After(cfg, s0, before), news), after);
    NoLostRotation(cfg, s0, before, news, after);
  }
}
