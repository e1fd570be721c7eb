/** Accounting of signals, and when the loop deadlocks on its own channel. */
module RotationSignals {
  import opened Base
  import opened Rotation

  // ---------- Conservation ----------

  /** Events received, passes started, failed and completed, retries given up, broadcasts to the manager. */
  datatype Tally = Tally(receipts: nat, passes: nat, failed: nat, finished: nat, quits: nat, broadcasts: nat)

  function Count(cfg: Config, s: State, a: Action): Tally
    requires Enabled(s, a)
  {
    Tally(Bit(a.TakeEvent?), Bit(a.TakeToken?), Bit(Fails(cfg, s, a)), Bit(a.Finish?), Bit(a.RetryQuits?),
          Bit(Broadcasts(s, a) && !s.loop.NotStarted?))
  }

  function Sum(a: Tally, b: Tally): Tally {
    Tally(a.receipts + b.receipts, a.passes + b.passes, a.failed + b.failed, a.finished + b.finished,
          a.quits + b.quits, a.broadcasts + b.broadcasts)
  }

  function Total(cfg: Config, s: State, actions: seq<Action>): Tally
    requires Runs(cfg, s, actions)
    decreases |actions|
  {
    if actions == [] then Tally(0, 0, 0, 0, 0, 0)
    else Sum(Count(cfg, s, actions[0]), Total(cfg, Apply(cfg, s, actions[0]), actions[1..]))
  }

  /** Signals that exist after receipt: buffered, in a retry goroutine, or held by the loop. */
  function Live(s: State): nat {
    s.token + s.sleeping + s.posting + Bit(s.loop.Holding? || s.loop.Blocked?)
  }

  lemma StepConservesLive(cfg: Config, s: State, a: Action)
    requires WellFormed(s) && Enabled(s, a)
    ensures var t, c := Apply(cfg, s, a), Count(cfg, s, a);
      Live(s) + c.receipts + c.failed == Live(t) + c.passes + c.quits
  {
    hide ApplyVisit;
  }

  lemma StepConservesSends(cfg: Config, s: State, a: Action)
    requires WellFormed(s) && Enabled(s, a)
    ensures s.sends + Count(cfg, s, a).broadcasts == Apply(cfg, s, a).sends + Count(cfg, s, a).receipts
  {
    hide ApplyVisit;
  }

  lemma StepConservesPasses(cfg: Config, s: State, a: Action)
    requires WellFormed(s) && Enabled(s, a)
    ensures var t, c := Apply(cfg, s, a), Count(cfg, s, a);
      Bit(InPass(s.loop)) + c.passes == Bit(InPass(t.loop)) + c.failed + c.finished
  {
    hide ApplyVisit;
  }

  lemma {:induction false} RunConserves(cfg: Config, s: State, actions: seq<Action>)
    requires WellFormed(s) && Runs(cfg, s, actions)
    ensures var t, c := After(cfg, s, actions), Total(cfg, s, actions);
      && Live(s) + c.receipts + c.failed == Live(t) + c.passes + c.quits
      && s.sends + c.broadcasts == t.sends + c.receipts
      && Bit(InPass(s.loop)) + c.passes == Bit(InPass(t.loop)) + c.failed + c.finished
    decreases |actions|
  {
    hide Apply, Enabled, WellFormed, Count, Live, InPass;
    if actions != [] {
      StepConservesLive(cfg, s, actions[0]);
      StepConservesSends(cfg, s, actions[0]);
      StepConservesPasses(cfg, s, actions[0]);
      StepWellFormed(cfg, s, actions[0]);
      RunConserves(cfg, Apply(cfg, s, actions[0]), actions[1..]);
    }
  }

  /**
   In every run from the process start: receipts plus failed passes equal passes started plus live signals
   plus retries given up at cancellation; broadcasts equal receipts plus blocked sends; every pass
   has failed, completed or is under way; and the channel holds at most one value.
   */
  lemma SignalConservation(cfg: Config, s0: State, actions: seq<Action>)
    requires Init(s0) && Runs(cfg, s0, actions)
    ensures var s, c := After(cfg, s0, actions), Total(cfg, s0, actions);
      && c.receipts + c.failed
         == c.passes + s.token + s.sleeping + s.posting + Bit(s.loop.Holding? || s.loop.Blocked?) + c.quits
      && c.broadcasts == c.receipts + s.sends
      && c.passes == c.failed + c.finished + Bit(InPass(s.loop))
      && s.token <= 1
      && (!s.cancelled ==> c.quits == 0)
  {
    RunConserves(cfg, s0, actions);
    RunWellFormed(cfg, s0, actions);
    if !After(cfg, s0, actions).cancelled {
      NoQuitsBeforeCancel(cfg, s0, actions);
    }
  }

  lemma QuitNeedsCancel(cfg: Config, s: State, a: Action)
    requires Enabled(s, a)
    ensures s.cancelled ==> Apply(cfg, s, a).cancelled
    ensures Count(cfg, s, a).quits > 0 ==> s.cancelled
  {
  }

  lemma {:induction false} NoQuitsBeforeCancel(cfg: Config, s: State, actions: seq<Action>)
    requires Runs(cfg, s, actions)
    ensures s.cancelled ==> After(cfg, s, actions).cancelled
    ensures !After(cfg, s, actions).cancelled ==> Total(cfg, s, actions).quits == 0
    decreases |actions|
  {
    hide Apply, Enabled, Count;
    if actions != [] {
      QuitNeedsCancel(cfg, s, actions[0]);
      NoQuitsBeforeCancel(cfg, Apply(cfg, s, actions[0]), actions[1..]);
    }
  }

  // ---------- Deadlock ----------

  /**
   The loop blocks in exactly one kind of step: its own send while the slot is taken. The slot may have been
   free when the event was received.
   */
  lemma BlocksExactly(cfg: Config, s: State, a: Action)
    requires WellFormed(s) && Enabled(s, a) && !s.loop.Blocked?
    ensures Apply(cfg, s, a).loop.Blocked? <==> a.SendToken? && s.token == 1
  {
    hide ApplyVisit;
  }

  /** Nothing releases a blocked loop, not even cancellation. */
  lemma {:induction false} BlockedForever(cfg: Config, s: State, actions: seq<Action>)
    requires WellFormed(s) && Runs(cfg, s, actions) && s.loop.Blocked?
    ensures After(cfg, s, actions).loop.Blocked?
    decreases |actions|
  {
    if actions != [] {
      var t := Apply(cfg, s, actions[0]);
      assert t.loop.Blocked?;
      StepWellFormed(cfg, s, actions[0]);
      BlockedForever(cfg, t, actions[1..]);
    }
  }

  /** The pass under way has a storage call that can fail it still ahead, if the bundle stays as it is. */
  predicate MayFail(s: State) {
    || s.loop.Listing?
    || (AtVolume(s) && !(|s.loop.todo| == 1 && s.loop.at.CaRead? && s.loop.at.ca == s.bundle))
  }

  /** Signals that can still meet in the channel; a pass that may fail counts, since it leaves a retry. */
  function Outstanding(s: State): nat {
    s.sends + Bit(s.loop.Holding?) + s.token + s.sleeping + s.posting + Bit(MayFail(s))
  }

  /** An event waits or is held by the loop, and it is not the only signal. */
  predicate AtRisk(s: State) {
    (s.sends >= 1 || s.loop.Holding?) && Outstanding(s) >= 2
  }

  predicate NoNews(actions: seq<Action>) {
    forall i :: 0 <= i < |actions| ==> !FromProvider(actions[i])
  }

  lemma StepStaysSafe(cfg: Config, s: State, a: Action)
    requires WellFormed(s) && Enabled(s, a) && !FromProvider(a) && !s.loop.Blocked? && !AtRisk(s)
    ensures !Apply(cfg, s, a).loop.Blocked? && !AtRisk(Apply(cfg, s, a))
  {
  }

  lemma {:induction false} SafeRunNeverBlocks(cfg: Config, s: State, actions: seq<Action>)
    requires WellFormed(s) && !s.loop.Blocked? && !AtRisk(s)
    requires Runs(cfg, s, actions) && NoNews(actions)
    ensures !After(cfg, s, actions).loop.Blocked?
    decreases |actions|
  {
    hide Apply, Enabled, WellFormed, AtRisk;
    if actions != [] {
      StepStaysSafe(cfg, s, actions[0]);
      StepWellFormed(cfg, s, actions[0]);
      SafeRunNeverBlocks(cfg, Apply(cfg, s, actions[0]), actions[1..]);
    }
  }

  ghost predicate CanBlock(cfg: Config, s: State) {
    exists actions :: Runs(cfg, s, actions) && NoNews(actions) && After(cfg, s, actions).loop.Blocked?
  }

  /** Prefixes a run to Blocked with one more step. */
  lemma StepThenBlock(cfg: Config, s: State, a: Action)
    requires Enabled(s, a) && !FromProvider(a) && CanBlock(cfg, Apply(cfg, s, a))
    ensures CanBlock(cfg, s)
  {
    hide Apply, Enabled;
    var t := Apply(cfg, s, a);
    var rest :| Runs(cfg, t, rest) && NoNews(rest) && After(cfg, t, rest).loop.Blocked?;
    var actions := [a] + rest;
    assert actions[1..] == rest;
    assert Runs(cfg, s, actions) && After(cfg, s, actions).loop.Blocked?;
  }

  lemma AlreadyBlocked(cfg: Config, s: State)
    requires s.loop.Blocked?
    ensures CanBlock(cfg, s)
  {
    assert Runs(cfg, s, []) && NoNews([]) && After(cfg, s, []).loop.Blocked?;
  }

  /** Between passes: fill the slot by some other signal, then hold an event and send. */
  lemma {:induction false} IdleRiskBlocks(cfg: Config, s: State)
    requires WellFormed(s) && !s.crashed && (s.loop.Idle? || s.loop.Holding?) && AtRisk(s)
    ensures CanBlock(cfg, s)
    decreases 1 - s.token, s.sleeping, s.loop.Idle?
  {
    var a :=
      if s.loop.Idle? && (s.token == 1 || s.sends >= 2) then TakeEvent
      else if s.loop.Holding? && (s.token == 1 || s.sends >= 1) then SendToken
      else if s.posting > 0 then RetryPosts
      else RetryWakes;
    var t := Apply(cfg, s, a);
    if t.loop.Blocked? {
      AlreadyBlocked(cfg, t);
    } else {
      IdleRiskBlocks(cfg, t);
    }
    StepThenBlock(cfg, s, a);
  }

  /** Steps of a visit before the one that may fail it. */
  function Remaining(loop: Loop): nat {
    if !loop.Visiting? then 0
    else match loop.at case PairRead(_, _) => 3 case CaRead(_, _, _) => 3 case Rewrite(_, _) => 2 case _ => 1
  }

  predicate Nearer(later: Loop, earlier: Loop) {
    && earlier.Visiting? && later.Visiting?
    && (|| |later.todo| < |earlier.todo|
        || (later.todo == earlier.todo && Remaining(later) < Remaining(earlier)))
  }

  /** The quickest way to the end of a pass. */
  function ShortCut(s: State): Action
    requires InPass(s.loop)
  {
    match s.loop
    case Visiting(todo, _) => if todo == [] then Finish else Visit(false)
    case _ => List([], false)
  }

  lemma ShortCutProgress(cfg: Config, s: State)
    requires WellFormed(s) && !s.crashed && InPass(s.loop)
    ensures Enabled(s, ShortCut(s))
    ensures var t := Apply(cfg, s, ShortCut(s)); !t.crashed && (t.loop.Idle? || Nearer(t.loop, s.loop))
  {
  }

  lemma ShortCutKeepsRisk(cfg: Config, s: State)
    requires WellFormed(s) && !s.crashed && InPass(s.loop) && AtRisk(s)
    ensures Enabled(s, ShortCut(s))
    ensures var t := Apply(cfg, s, ShortCut(s));
      AtRisk(t) && !t.crashed && (t.loop.Idle? || Nearer(t.loop, s.loop))
  {
  }

  /** A pass under way can be ended without losing a waiting send or a signal. */
  lemma {:induction false} PassRiskBlocks(cfg: Config, s: State)
    requires WellFormed(s) && !s.crashed && InPass(s.loop) && AtRisk(s)
    ensures CanBlock(cfg, s)
    decreases if s.loop.Visiting? then |s.loop.todo| else 0, Remaining(s.loop)
  {
    hide Apply, Enabled, WellFormed, AtRisk;
    var a := ShortCut(s);
    ShortCutKeepsRisk(cfg, s);
    var t := Apply(cfg, s, a);
    StepWellFormed(cfg, s, a);
    if InPass(t.loop) {
      PassRiskBlocks(cfg, t);
    } else {
      IdleRiskBlocks(cfg, t);
    }
    StepThenBlock(cfg, s, a);
  }

  /**
   Without further news of the bundle, the loop can deadlock from a state exactly when an event waits there
   or is held by the loop, and it is not the only outstanding signal.
   */
  lemma DeadlockExact(cfg: Config, s: State)
    requires WellFormed(s) && !s.crashed && !s.loop.Blocked? && !s.loop.Exited?
    ensures CanBlock(cfg, s) <==> AtRisk(s)
  {
    hide Apply, Enabled;
    if AtRisk(s) {
      if InPass(s.loop) {
        PassRiskBlocks(cfg, s);
      } else {
        IdleRiskBlocks(cfg, s);
      }
    } else {
      forall actions | Runs(cfg, s, actions) && NoNews(actions) ensures !After(cfg, s, actions).loop.Blocked? {
        SafeRunNeverBlocks(cfg, s, actions);
      }
    }
  }

  /** At most one signal is outstanding in every state of the run. */
  predicate OneAtATime(cfg: Config, s: State, actions: seq<Action>)
    requires Runs(cfg, s, actions)
    decreases |actions|
  {
    Outstanding(s) <= 1 && (actions == [] || OneAtATime(cfg, Apply(cfg, s, actions[0]), actions[1..]))
  }

  /** Runs with bundle changes, too, never deadlock while signals come one at a time. */
  lemma {:induction false} OneAtATimeNeverBlocks(cfg: Config, s: State, actions: seq<Action>)
    requires WellFormed(s) && !s.loop.Blocked? && Runs(cfg, s, actions) && OneAtATime(cfg, s, actions)
    ensures !After(cfg, s, actions).loop.Blocked?
    decreases |actions|
  {
    hide Apply, WellFormed;
    if actions != [] {
      BlocksExactly(cfg, s, actions[0]);
      StepWellFormed(cfg, s, actions[0]);
      OneAtATimeNeverBlocks(cfg, Apply(cfg, s, actions[0]), actions[1..]);
    }
  }
}
