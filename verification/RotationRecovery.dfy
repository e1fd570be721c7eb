/** When the outstanding signals can be worked off, and when they always are. */
module RotationRecovery {
  import opened Base
  import opened Volumes
  import opened Rotation
  import opened RotationSafety
  import opened RotationSignals

  /** Steps of the manager and its retry goroutines, failures included. */
  predicate Managerial(a: Action) {
    || a.TakeEvent? || a.SendToken? || a.TakeToken? || a.List? || a.Visit? || a.Finish?
    || a.RetryWakes? || a.RetryPosts?
  }

  /** The manager, left alone, can reach quiescence with every volume current. */
  ghost predicate CanSettle(cfg: Config, s: State) {
    exists actions :: Settles(cfg, s, actions)
  }

  ghost predicate Settles(cfg: Config, s: State, actions: seq<Action>) {
    && Runs(cfg, s, actions)
    && (forall i :: 0 <= i < |actions| ==> Managerial(actions[i]))
    && Quiescent(After(cfg, s, actions)) && AllCurrent(cfg, After(cfg, s, actions))
  }

  /** The volume holds a certificate and a key under the manager's names. */
  predicate ReadableVolume(cfg: Config, vol: Volume) {
    cfg.manager.cert in vol.files && cfg.manager.key in vol.files
  }

  /** The visit at hand has what it needs to write the volume's files whether or not they are still there. */
  predicate CanRewrite(cfg: Config, s: State, v: VolumeId) {
    && AtVolume(s) && s.loop.todo[0] == v && v in s.store
    && match s.loop.at
       case Begin => false
       case Located => false
       case CertRead(_) => cfg.manager.key in s.store[v].files
       case CaRead(_, _, ca) => ca != s.bundle
       case _ => true
  }

  /** The current pass is going to fail at a volume that has been removed. */
  predicate Doomed(s: State) {
    s.loop.Visiting? && exists v :: v in s.loop.todo && v !in s.store && !Cleared(s, v)
  }

  /** Every registered volume that is still to be visited can be read, or written from what has been read. */
  predicate Settleable(cfg: Config, s: State) {
    forall v :: v in s.store && (Owed(s, v) || Doomed(s)) ==> ReadableVolume(cfg, s.store[v]) || CanRewrite(cfg, s, v)
  }

  predicate Running(s: State) {
    !s.loop.NotStarted? && !s.loop.Exited? && !s.cancelled && !s.crashed
  }

  /** The loop is blocked on its own send, or holds an event that will block it. */
  predicate Jammed(s: State) {
    s.loop.Blocked? || (s.loop.Holding? && s.token == 1)
  }

  // ---------- A schedule that settles ----------

  lemma {:induction false} Enumerable(store: map<VolumeId, Volume>)
    ensures exists ids :: Enumerates(ids, store)
    decreases |store|
  {
    if store == map[] {
      assert Enumerates([], store);
    } else {
      var v :| v in store;
      var rest := store - {v};
      assert rest.Keys == store.Keys - {v};
      Enumerable(rest);
      var ids :| Enumerates(ids, rest);
      var all := ids + [v];
      assert forall w :: w in store ==> w == v || w in rest;
      assert forall i :: 0 <= i < |ids| ==> all[i] == ids[i];
      assert Enumerates(all, store);
    }
  }

  lemma StepThenSettle(cfg: Config, s: State, a: Action)
    requires Enabled(s, a) && Managerial(a) && CanSettle(cfg, Apply(cfg, s, a))
    ensures CanSettle(cfg, s)
  {
    hide Apply, Enabled, Managerial, Quiescent, AllCurrent;
    var rest :| Settles(cfg, Apply(cfg, s, a), rest);
    var actions := [a] + rest;
    assert actions[1..] == rest;
    assert forall i :: 0 < i < |actions| ==> actions[i] == rest[i - 1];
    assert Settles(cfg, s, actions);
  }

  function Todo(loop: Loop): seq<VolumeId> {
    if loop.Visiting? then loop.todo else []
  }

  function Phase(loop: Loop): nat {
    match loop case Listing => 2 case Visiting(_, _) => 1 case _ => 0
  }

  /** Steps taken of the visit at hand. */
  function Progress(at: Visit): nat {
    match at
    case Begin => 0
    case Located => 1
    case CertRead(_) => 2
    case PairRead(_, _) => 3
    case CaRead(_, _, _) => 4
    case Rewrite(_, _) => 5
    case Put(_, _, _) => 6
  }

  function Stage(loop: Loop): nat {
    if loop.Visiting? then 6 - Progress(loop.at) else 0
  }

  /** One step towards rest: no event is received while the slot is taken, and every volume is rewritten. */
  predicate Chosen(s: State, a: Action) {
    match s.loop
    case Idle =>
      if s.token > 0 then a == TakeToken else if s.sends > 0 then a == TakeEvent
      else if s.posting > 0 then a == RetryPosts else s.sleeping > 0 && a == RetryWakes
    case Holding => a == SendToken
    case Listing => a.List? && a.ok && Enumerates(a.ids, s.store)
    case Visiting(todo, at) => a == if todo == [] then Finish else Visit(!at.PairRead?)
    case _ => false
  }

  lemma HasChosen(s: State)
    requires WellFormed(s) && Running(s) && !Jammed(s) && !Quiescent(s)
    ensures exists a :: Chosen(s, a)
  {
    if s.loop.Listing? {
      Enumerable(s.store);
      var ids :| Enumerates(ids, s.store);
      assert Chosen(s, List(ids, true));
    } else if s.loop.Holding? {
      assert Chosen(s, SendToken);
    } else if s.loop.Idle? {
      assert Chosen(s, TakeToken) || Chosen(s, TakeEvent) || Chosen(s, RetryPosts) || Chosen(s, RetryWakes);
    } else {
      assert Chosen(s, Finish) || Chosen(s, Visit(true)) || Chosen(s, Visit(false));
    }
  }

  lemma ChosenEnabled(cfg: Config, s: State, a: Action)
    requires WellFormed(s) && !s.crashed && Chosen(s, a)
    ensures Enabled(s, a) && Managerial(a) && !LosingStore(s, a)
    ensures Running(s) && !Jammed(s) ==> Running(Apply(cfg, s, a)) && !Jammed(Apply(cfg, s, a))
  {
  }

  lemma ChosenManagerial(s: State, a: Action)
    requires Chosen(s, a)
    ensures Managerial(a)
  {
  }

  lemma TodoSplit(s: State, v: VolumeId)
    requires AtVolume(s)
    ensures v in s.loop.todo <==> v == s.loop.todo[0] || v in s.loop.todo[1..]
  {
  }

  /** A chosen step fails only at a removed volume. */
  lemma ChosenFailsDoomed(cfg: Config, s: State, a: Action)
    requires WellFormed(s) && Settleable(cfg, s) && Enabled(s, a) && Chosen(s, a) && Fails(cfg, s, a)
    ensures Doomed(s) && s.loop.todo[0] !in s.store
  {
    var v := s.loop.todo[0];
    assert v in s.loop.todo && Ahead(s, v);
  }

  lemma ChosenOwes(cfg: Config, s: State, a: Action, v: VolumeId)
    requires WellFormed(s) && Enabled(s, a) && Chosen(s, a) && !Fails(cfg, s, a)
    ensures Owed(Apply(cfg, s, a), v) ==> Owed(s, v)
  {
    if AtVolume(s) { TodoSplit(s, v); }
  }

  lemma ChosenKeepsFit(cfg: Config, s: State, a: Action, v: VolumeId)
    requires WellFormed(s) && Enabled(s, a) && Chosen(s, a) && !Fails(cfg, s, a)
    requires v in s.store && (ReadableVolume(cfg, s.store[v]) || CanRewrite(cfg, s, v))
    ensures var t := Apply(cfg, s, a);
      v in t.store && (ReadableVolume(cfg, t.store[v]) || CanRewrite(cfg, t, v))
  {
  }

  lemma ChosenKeepsStore(cfg: Config, s: State, a: Action)
    requires Enabled(s, a) && Chosen(s, a)
    ensures Apply(cfg, s, a).store.Keys == s.store.Keys
    ensures Fails(cfg, s, a) ==> Apply(cfg, s, a).store == s.store
  {
  }

  lemma ChosenKeepsSettleable(cfg: Config, s: State, a: Action)
    requires WellFormed(s) && Settleable(cfg, s) && Enabled(s, a) && Chosen(s, a)
    ensures Settleable(cfg, Apply(cfg, s, a))
  {
    hide Apply, Enabled, Chosen, WellFormed, Doomed, Owed, Fails, ReadableVolume;
    var t := Apply(cfg, s, a);
    ChosenKeepsStore(cfg, s, a);
    if Fails(cfg, s, a) {
      ChosenFailsDoomed(cfg, s, a);
    } else {
      assert Managerial(a) by { ChosenManagerial(s, a); }
      if Doomed(t) { NotDoomedStays(cfg, s, a); }
      forall v | v in t.store && (Owed(t, v) || Doomed(t))
        ensures ReadableVolume(cfg, t.store[v]) || CanRewrite(cfg, t, v)
      {
        assert v in t.store.Keys;
        ChosenOwes(cfg, s, a, v);
        ChosenKeepsFit(cfg, s, a, v);
      }
    }
  }

  /** Managerial steps doom no pass. */
  lemma NotDoomedStays(cfg: Config, s: State, a: Action)
    requires WellFormed(s) && Enabled(s, a) && Managerial(a) && Doomed(Apply(cfg, s, a))
    ensures Doomed(s)
  {
    var t := Apply(cfg, s, a);
    var v :| v in t.loop.todo && v !in t.store && !Cleared(t, v);
    if AtVolume(s) {
      TodoSplit(s, v);
      assert v in s.loop.todo && v !in s.store && !Cleared(s, v);
    }
  }

  function Signals(s: State): nat {
    4 * s.sends + 3 * s.sleeping + 2 * s.posting + 2 * Bit(s.loop.Holding?) + s.token
  }

  /** The signals left, then what is left of the pass. */
  predicate Smaller(t: State, s: State) {
    || Signals(t) < Signals(s)
    || (Signals(t) == Signals(s)
        && (|| Phase(t.loop) < Phase(s.loop)
            || (Phase(t.loop) == Phase(s.loop)
                && (|| |Todo(t.loop)| < |Todo(s.loop)|
                    || (|Todo(t.loop)| == |Todo(s.loop)| && Stage(t.loop) < Stage(s.loop))))))
  }

  lemma ChosenDecreases(cfg: Config, s: State, a: Action)
    requires WellFormed(s) && Enabled(s, a) && Chosen(s, a) && !Fails(cfg, s, a)
    ensures Smaller(Apply(cfg, s, a), s)
  {
  }

  lemma FailureEndsPass(cfg: Config, s: State, a: Action)
    requires Enabled(s, a) && Fails(cfg, s, a)
    ensures !Doomed(Apply(cfg, s, a))
  {
  }

  lemma {:induction false} SettleableSettles(cfg: Config, s: State)
    requires cfg.driver.ca == cfg.manager.ca
    requires WellFormed(s) && Running(s) && !Jammed(s) && Settleable(cfg, s) && Protected(cfg, s)
    ensures CanSettle(cfg, s)
    decreases Doomed(s), Signals(s), Phase(s.loop), |Todo(s.loop)|, Stage(s.loop)
  {
    hide Apply, Chosen, Enabled, WellFormed, Settleable, Doomed, Managerial;
    if Quiescent(s) {
      assert Settles(cfg, s, []);
    } else {
      HasChosen(s);
      var a :| Chosen(s, a);
      ChosenEnabled(cfg, s, a);
      ChosenKeepsSettleable(cfg, s, a);
      if Fails(cfg, s, a) {
        ChosenFailsDoomed(cfg, s, a);
        FailureEndsPass(cfg, s, a);
      } else {
        if Doomed(Apply(cfg, s, a)) { NotDoomedStays(cfg, s, a); }
        ChosenDecreases(cfg, s, a);
      }
      StepWellFormed(cfg, s, a);
      StepKeepsProtectionExactly(cfg, s, a);
      SettleableSettles(cfg, Apply(cfg, s, a));
      StepThenSettle(cfg, s, a);
    }
  }

  // ---------- No schedule settles ----------

  lemma StepStaysJammed(cfg: Config, s: State, a: Action)
    requires WellFormed(s) && Enabled(s, a) && Jammed(s)
    ensures Jammed(Apply(cfg, s, a))
  {
    hide ApplyVisit;
  }

  /** Nothing whatever frees the loop: the slot it waits for is emptied by nobody else. */
  lemma {:induction false} JammedForever(cfg: Config, s: State, actions: seq<Action>)
    requires WellFormed(s) && Jammed(s) && Runs(cfg, s, actions)
    ensures Jammed(After(cfg, s, actions))
    decreases |actions|
  {
    hide Apply, Enabled, WellFormed, Jammed;
    if actions != [] {
      StepStaysJammed(cfg, s, actions[0]);
      StepWellFormed(cfg, s, actions[0]);
      JammedForever(cfg, Apply(cfg, s, actions[0]), actions[1..]);
    }
  }

  /** A volume that will be listed, or is still to be visited, and makes the pass fail when it is. */
  predicate Stuck(cfg: Config, s: State, v: VolumeId) {
    && v in s.store && !ReadableVolume(cfg, s.store[v]) && !CanRewrite(cfg, s, v)
    && (Owed(s, v) || Doomed(s))
  }

  /** A doomed pass goes on being doomed until it fails. */
  lemma DoomedStep(cfg: Config, s: State, a: Action)
    requires WellFormed(s) && Enabled(s, a) && Managerial(a) && Doomed(s)
    ensures Pending(Apply(cfg, s, a)) || Doomed(Apply(cfg, s, a))
  {
    var t := Apply(cfg, s, a);
    var u :| u in s.loop.todo && u !in s.store && !Cleared(s, u);
    TodoSplit(s, u);
    if !Pending(t) {
      assert u in t.loop.todo && u !in t.store && !Cleared(t, u);
    }
  }

  lemma StuckVisit(cfg: Config, s: State, ok: bool, v: VolumeId)
    requires WellFormed(s) && AtVolume(s) && Stuck(cfg, s, v)
    ensures var t := ApplyVisit(cfg, s, ok);
      v in t.store && !ReadableVolume(cfg, t.store[v]) && !CanRewrite(cfg, t, v) && (Owed(s, v) ==> Owed(t, v))
  {
    hide Doomed;
    TodoSplit(s, v);
  }

  lemma OwedStuckStep(cfg: Config, s: State, a: Action, v: VolumeId)
    requires WellFormed(s) && Enabled(s, a) && Managerial(a) && Stuck(cfg, s, v)
    ensures var t := Apply(cfg, s, a);
      v in t.store && !ReadableVolume(cfg, t.store[v]) && !CanRewrite(cfg, t, v) && (Owed(s, v) ==> Owed(t, v))
  {
    hide Doomed, ApplyVisit;
    if a.Visit? { StuckVisit(cfg, s, a.ok, v); }
  }

  lemma {:induction false} StuckNeverSettles(cfg: Config, s: State, actions: seq<Action>, v: VolumeId)
    requires WellFormed(s) && Stuck(cfg, s, v) && Runs(cfg, s, actions)
    requires forall i :: 0 <= i < |actions| ==> Managerial(actions[i])
    ensures !Quiescent(After(cfg, s, actions))
    decreases |actions|
  {
    hide Apply, Enabled, WellFormed, Managerial, ReadableVolume, CanRewrite;
    if actions != [] {
      OwedStuckStep(cfg, s, actions[0], v);
      if !Owed(s, v) { DoomedStep(cfg, s, actions[0]); }
      StepWellFormed(cfg, s, actions[0]);
      StuckNeverSettles(cfg, Apply(cfg, s, actions[0]), actions[1..], v);
    }
  }

  /**
   From any running state, the manager can bring every volume up to date and come to rest exactly when it
   neither is blocked on its own send nor holds an event it will block on, and every registered volume it
   has yet to visit has its keypair files under the manager's names, or is the one at hand and can be
   written from what the visit has read. One other volume without them makes every pass fail.
   */
  lemma SettlesExactly(cfg: Config, s: State)
    requires cfg.driver.ca == cfg.manager.ca
    requires WellFormed(s) && Running(s) && Protected(cfg, s)
    ensures CanSettle(cfg, s) <==> !Jammed(s) && Settleable(cfg, s)
  {
    hide Apply, Enabled, Owed, Doomed, CanRewrite, ReadableVolume;
    if Jammed(s) {
      forall actions | Runs(cfg, s, actions) ensures !Quiescent(After(cfg, s, actions)) {
        JammedForever(cfg, s, actions);
      }
    } else if Settleable(cfg, s) {
      SettleableSettles(cfg, s);
    } else {
      var v :| v in s.store && (Owed(s, v) || Doomed(s)) && !ReadableVolume(cfg, s.store[v]) && !CanRewrite(cfg, s, v);
      assert Stuck(cfg, s, v);
      forall actions | Runs(cfg, s, actions) && forall i :: 0 <= i < |actions| ==> Managerial(actions[i])
        ensures !Quiescent(After(cfg, s, actions))
      {
        StuckNeverSettles(cfg, s, actions, v);
      }
    }
  }

  // ---------- Every schedule settles ----------

  /** A step of the manager in which no storage call fails of itself. */
  predicate FaultFree(a: Action) {
    Managerial(a) && (a.List? || a.Visit? ==> a.ok)
  }

  predicate Readable(cfg: Config, s: State) {
    forall v :: v in s.store ==> ReadableVolume(cfg, s.store[v])
  }

  /** Steps left of the pass under way. */
  function PassWork(s: State): nat {
    match s.loop
    case Listing => 8 * |s.store| + 2
    case Visiting(todo, at) => if todo == [] then 1 else 8 * |todo| + 1 - Progress(at)
    case _ => 0
  }

  /** A bound on the steps left: one pass for every unit of signal, and a repetition of a doomed one. */
  function Rank(s: State): nat {
    (Signals(s) + 4 * Bit(Doomed(s))) * (8 * |s.store| + 3) + PassWork(s)
  }

  lemma {:induction false} EnumerationLength(ids: seq<VolumeId>, keys: set<VolumeId>)
    requires forall i :: 0 <= i < |ids| ==> ids[i] in keys
    requires forall i, j :: 0 <= i < j < |ids| ==> ids[i] != ids[j]
    ensures |ids| <= |keys|
  {
    if ids != [] {
      EnumerationLength(ids[1..], keys - {ids[0]});
    }
  }

  lemma FaultFreeKeeps(cfg: Config, s: State, a: Action)
    requires WellFormed(s) && Enabled(s, a) && FaultFree(a) && Readable(cfg, s)
    ensures var t := Apply(cfg, s, a);
      && Readable(cfg, t) && t.store.Keys == s.store.Keys && t.cancelled == s.cancelled
      && t.crashed == s.crashed && !t.loop.NotStarted? && (t.loop.Exited? <==> s.loop.Exited?)
      && !LosingStore(s, a)
  {
  }

  /** With every volume readable only a doomed pass fails. */
  lemma FaultFreeFailure(cfg: Config, s: State, a: Action)
    requires WellFormed(s) && Enabled(s, a) && FaultFree(a) && Readable(cfg, s) && Fails(cfg, s, a)
    ensures var t := Apply(cfg, s, a);
      Doomed(s) && !Doomed(t) && Signals(t) == Signals(s) + 3 && PassWork(t) == 0
  {
    var v := s.loop.todo[0];
    assert v in s.loop.todo && v !in s.store && !Cleared(s, v);
  }

  lemma VisitProgress(cfg: Config, s: State, a: Action)
    requires WellFormed(s) && Enabled(s, a) && FaultFree(a) && !Fails(cfg, s, a)
    requires s.loop.Visiting? && !a.RetryWakes? && !a.RetryPosts?
    ensures var t := Apply(cfg, s, a); Signals(t) == Signals(s) && PassWork(t) < PassWork(s)
  {
    hide FileSet, Signals;
    var t := Apply(cfg, s, a);
    assert Signals(t) == Signals(s) by { SameSignals(s, t); }
  }

  lemma SameSignals(s: State, t: State)
    requires t.sends == s.sends && t.sleeping == s.sleeping && t.posting == s.posting && t.token == s.token
    requires !s.loop.Holding? && !t.loop.Holding?
    ensures Signals(t) == Signals(s)
  {
  }

  /** Any other fault-free step uses up signals or gets on with the pass. */
  lemma FaultFreeProgress(cfg: Config, s: State, a: Action)
    requires WellFormed(s) && Enabled(s, a) && FaultFree(a) && !Fails(cfg, s, a)
    ensures var t := Apply(cfg, s, a);
      || (Signals(t) < Signals(s) && PassWork(t) <= PassWork(s) + 8 * |s.store| + 2)
      || (Signals(t) == Signals(s) && PassWork(t) < PassWork(s))
  {
    if a.List? {
      EnumerationLength(a.ids, s.store.Keys);
    } else if InPass(s.loop) && !a.RetryWakes? && !a.RetryPosts? {
      VisitProgress(cfg, s, a);
    }
  }

  lemma RankArithmetic(x: nat, y: nat, w: nat)
    requires x < y
    ensures x * w + w <= y * w
  {
    assert y * w == (x + 1) * w + (y - x - 1) * w;
  }

  lemma FaultFreeDecreases(cfg: Config, s: State, a: Action)
    requires WellFormed(s) && Enabled(s, a) && FaultFree(a) && Readable(cfg, s)
    ensures Rank(Apply(cfg, s, a)) < Rank(s)
  {
    hide Apply, Enabled, WellFormed, Readable, Managerial, Signals, PassWork, Doomed, Fails;
    FaultFreeKeeps(cfg, s, a);
    var t := Apply(cfg, s, a);
    if Fails(cfg, s, a) {
      FaultFreeFailure(cfg, s, a);
    } else {
      FaultFreeProgress(cfg, s, a);
      if Doomed(t) { NotDoomedStays(cfg, s, a); }
    }
    assert |t.store| == |t.store.Keys| == |s.store|;
    var x, y, w := Signals(t) + 4 * Bit(Doomed(t)), Signals(s) + 4 * Bit(Doomed(s)), 8 * |s.store| + 3;
    if x < y { RankArithmetic(x, y, w); }
  }

  /** Nothing but a fault or an outside event can happen any more. */
  ghost predicate AtRest(s: State) {
    forall a :: FaultFree(a) ==> !Enabled(s, a)
  }

  lemma AtRestExactly(s: State)
    requires WellFormed(s) && AtRest(s) && !s.crashed && !s.loop.NotStarted? && !s.loop.Exited?
    ensures s.loop.Blocked? || Quiescent(s)
  {
    if s.loop.Listing? {
      Enumerable(s.store);
      var ids :| Enumerates(ids, s.store);
      assert Enabled(s, List(ids, true)) && FaultFree(List(ids, true));
    } else if s.loop.Visiting? {
      var a := if s.loop.todo == [] then Finish else Visit(true);
      assert Enabled(s, a) && FaultFree(a);
    } else {
      assert !Enabled(s, TakeToken) && !Enabled(s, TakeEvent) && !Enabled(s, SendToken);
      assert !Enabled(s, RetryWakes) && !Enabled(s, RetryPosts);
    }
  }

  lemma {:induction false} FaultFreeRun(cfg: Config, s: State, actions: seq<Action>)
    requires cfg.driver.ca == cfg.manager.ca
    requires WellFormed(s) && Protected(cfg, s) && Readable(cfg, s)
    requires !s.crashed && !s.cancelled && !s.loop.NotStarted? && !s.loop.Exited?
    requires Runs(cfg, s, actions) && forall i :: 0 <= i < |actions| ==> FaultFree(actions[i])
    ensures var end := After(cfg, s, actions);
      && |actions| + Rank(end) <= Rank(s)
      && WellFormed(end) && Protected(cfg, end)
      && !end.crashed && !end.loop.NotStarted? && !end.loop.Exited?
    decreases |actions|
  {
    hide Apply, Enabled, WellFormed, Readable, FaultFree, Rank, Protected;
    if actions != [] {
      var t := Apply(cfg, s, actions[0]);
      FaultFreeKeeps(cfg, s, actions[0]);
      FaultFreeDecreases(cfg, s, actions[0]);
      StepWellFormed(cfg, s, actions[0]);
      StepKeepsProtectionExactly(cfg, s, actions[0]);
      FaultFreeRun(cfg, t, actions[1..]);
    }
  }

  /**
   Whatever the scheduler does: if every registered volume has its keypair files, a run of the manager in
   which no storage call fails of itself is no longer than Rank(s) steps, and when it can go no further,
   every volume is current and no signal is left, or the loop is blocked on its own send. The latter
   cannot happen if no send waits beside another signal.
   */
  lemma EveryScheduleSettles(cfg: Config, s: State, actions: seq<Action>)
    requires cfg.driver.ca == cfg.manager.ca
    requires WellFormed(s) && Running(s) && Protected(cfg, s) && Readable(cfg, s)
    requires Runs(cfg, s, actions) && forall i :: 0 <= i < |actions| ==> FaultFree(actions[i])
    ensures var end := After(cfg, s, actions);
      && |actions| <= Rank(s)
      && (AtRest(end) ==> end.loop.Blocked? || (Quiescent(end) && AllCurrent(cfg, end)))
      && (!s.loop.Blocked? && !AtRisk(s) ==> !end.loop.Blocked?)
  {
    hide Apply, Enabled, Runs, After, Rank, WellFormed, Readable, AtRisk, Doomed;
    FaultFreeRun(cfg, s, actions);
    var end := After(cfg, s, actions);
    if AtRest(end) { AtRestExactly(end); }
    if !s.loop.Blocked? && !AtRisk(s) {
      assert NoNews(actions);
      SafeRunNeverBlocks(cfg, s, actions);
    }
  }

  // ---------- The loop's return ----------

  /** Some continuation makes the loop return. */
  ghost predicate CanReturn(cfg: Config, s: State) {
    exists actions :: Runs(cfg, s, actions) && After(cfg, s, actions).loop.Exited?
  }

  lemma StepThenReturn(cfg: Config, s: State, a: Action)
    requires Enabled(s, a) && CanReturn(cfg, Apply(cfg, s, a))
    ensures CanReturn(cfg, s)
  {
    hide Apply, Enabled;
    var t := Apply(cfg, s, a);
    var rest :| Runs(cfg, t, rest) && After(cfg, t, rest).loop.Exited?;
    var actions := [a] + rest;
    assert actions[1..] == rest;
    assert Runs(cfg, s, actions) && After(cfg, s, actions).loop.Exited?;
  }

  lemma IdleReturns(cfg: Config, s: State)
    requires s.loop.Idle? && !s.crashed
    ensures CanReturn(cfg, s)
  {
    hide ApplyVisit;
    var t := s.(cancelled := true);
    var u := Apply(cfg, t, Exit);
    assert Runs(cfg, u, []) && After(cfg, u, []) == u;
    StepThenReturn(cfg, t, Exit);
    if !s.cancelled { StepThenReturn(cfg, s, Cancel); }
  }

  /** A pass under way can be cut short. */
  lemma {:induction false} PassReturns(cfg: Config, s: State)
    requires WellFormed(s) && !s.crashed && InPass(s.loop)
    ensures CanReturn(cfg, s)
    decreases |Todo(s.loop)|, Remaining(s.loop)
  {
    hide Apply, Enabled, WellFormed;
    var a := ShortCut(s);
    ShortCutProgress(cfg, s);
    var t := Apply(cfg, s, a);
    StepWellFormed(cfg, s, a);
    if t.loop.Idle? {
      IdleReturns(cfg, t);
    } else {
      PassReturns(cfg, t);
    }
    StepThenReturn(cfg, s, a);
  }

  /**
   Cancellation can make the loop return from every state except exactly when it is caught in its own send:
   then neither cancellation nor anything else ends it.
   */
  lemma ReturnsExactly(cfg: Config, s: State)
    requires WellFormed(s) && !s.crashed && !s.loop.NotStarted?
    ensures CanReturn(cfg, s) <==> !Jammed(s)
  {
    hide Apply, Enabled;
    if Jammed(s) {
      forall actions | Runs(cfg, s, actions) ensures !After(cfg, s, actions).loop.Exited? {
        JammedForever(cfg, s, actions);
      }
    } else if s.loop.Exited? {
      assert Runs(cfg, s, []) && After(cfg, s, []) == s;
    } else if InPass(s.loop) {
      PassReturns(cfg, s);
    } else if s.loop.Holding? {
      SendThenReturn(cfg, s);
    } else {
      IdleReturns(cfg, s);
    }
  }

  lemma SendThenReturn(cfg: Config, s: State)
    requires WellFormed(s) && !s.crashed && s.loop.Holding? && s.token == 0
    ensures CanReturn(cfg, s)
  {
    hide ApplyVisit;
    IdleReturns(cfg, Apply(cfg, s, SendToken));
    StepThenReturn(cfg, s, SendToken);
  }
}
