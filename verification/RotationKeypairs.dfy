/** What passes do to keypairs: nothing, unless a keypair write slips in between their reads and their write. */
module RotationKeypairs {
  import opened Base
  import opened Volumes
  import opened Renewal
  import opened Rotation

  /** The manager reads and writes the driver's keypair files, and the CA file is a third one. */
  predicate SameKeypairNames(cfg: Config) {
    && cfg.manager.cert == cfg.driver.cert && cfg.manager.key == cfg.driver.key
    && cfg.manager.ca != cfg.driver.cert && cfg.manager.ca != cfg.driver.key
    && cfg.driver.cert != cfg.driver.key
  }

  predicate HoldsPair(cfg: Config, s: State, v: VolumeId, pair: Keypair) {
    && v in s.store
    && HasFile(s.store[v], cfg.driver.cert, pair.chain)
    && HasFile(s.store[v], cfg.driver.key, pair.key)
  }

  /** The pass is handling the volume and has read at least its certificate. */
  predicate HasRead(s: State, v: VolumeId) {
    AtVolume(s) && s.loop.todo[0] == v && !s.loop.at.Begin? && !s.loop.at.Located?
  }

  /** Whatever the pass has read of the volume's keypair so far is of this one. */
  predicate ReadMatches(s: State, v: VolumeId, pair: Keypair) {
    HasRead(s, v) ==> s.loop.at.cert == pair.chain && (!s.loop.at.CertRead? ==> s.loop.at.key == pair.key)
  }

  /** The volume's own keypair write or removal. */
  predicate Touches(a: Action, v: VolumeId) {
    (a.WriterStore? || a.WriterMeta? || a.Remove?) && a.v == v
  }

  predicate NoTouch(actions: seq<Action>, v: VolumeId) {
    forall i :: 0 <= i < |actions| ==> !Touches(actions[i], v)
  }

  /** The pass writes back a certificate or a key other than the one on the volume. */
  predicate RevertingCommit(s: State, a: Action, v: VolumeId, pair: Keypair) {
    Commits(s, a, v) && !ReadMatches(s, v, pair)
  }

  // ---------- One step ----------

  /** Apart from the volume's own writer, exactly a reverting commit changes the keypair; metadata never changes. */
  lemma StepKeepsPairExactly(cfg: Config, s: State, a: Action, v: VolumeId, pair: Keypair)
    requires SameKeypairNames(cfg) && Enabled(s, a) && !Touches(a, v)
    requires HoldsPair(cfg, s, v, pair)
    ensures HoldsPair(cfg, Apply(cfg, s, a), v, pair) <==> !RevertingCommit(s, a, v, pair)
    ensures v in Apply(cfg, s, a).store && Apply(cfg, s, a).store[v].next == s.store[v].next
  {
  }

  lemma StepKeepsRead(cfg: Config, s: State, a: Action, v: VolumeId, pair: Keypair)
    requires SameKeypairNames(cfg) && Enabled(s, a) && !Touches(a, v)
    requires HoldsPair(cfg, s, v, pair) && ReadMatches(s, v, pair)
    ensures ReadMatches(Apply(cfg, s, a), v, pair)
  {
  }

  lemma StepKeepsWriter(cfg: Config, s: State, a: Action, v: VolumeId)
    requires Enabled(s, a) && !Touches(a, v) && v in s.writers
    ensures v in Apply(cfg, s, a).writers && Apply(cfg, s, a).writers[v] == s.writers[v]
  {
  }

  // ---------- Whole runs ----------

  /** Any number of complete, failed and interrupted passes keep a volume's keypair and renewal time. */
  lemma {:induction false} RunKeepsPair(cfg: Config, s: State, actions: seq<Action>, v: VolumeId, pair: Keypair)
    requires SameKeypairNames(cfg) && Runs(cfg, s, actions) && NoTouch(actions, v)
    requires HoldsPair(cfg, s, v, pair) && ReadMatches(s, v, pair)
    ensures var end := After(cfg, s, actions);
      && HoldsPair(cfg, end, v, pair) && ReadMatches(end, v, pair)
      && end.store[v].next == s.store[v].next
      && (v in s.writers && s.writers[v].Stored? ==> v in end.writers && end.writers[v] == s.writers[v])
    decreases |actions|
  {
    hide Apply, Enabled, ReadMatches, SameKeypairNames, Touches;
    if actions != [] {
      StepKeepsPairExactly(cfg, s, actions[0], v, pair);
      StepKeepsRead(cfg, s, actions[0], v, pair);
      if v in s.writers { StepKeepsWriter(cfg, s, actions[0], v); }
      assert !RevertingCommit(s, actions[0], v, pair);
      RunKeepsPair(cfg, Apply(cfg, s, actions[0]), actions[1..], v, pair);
    }
  }

  /** Left to passes and other volumes' writers, the state can come to hold this keypair, renewal time untouched. */
  ghost predicate CanHold(cfg: Config, s: State, v: VolumeId, pair: Keypair)
    requires v in s.store
  {
    exists actions :: LeadsToPair(cfg, s, actions, v, pair)
  }

  ghost predicate LeadsToPair(cfg: Config, s: State, actions: seq<Action>, v: VolumeId, pair: Keypair)
    requires v in s.store
  {
    && Runs(cfg, s, actions) && NoTouch(actions, v)
    && HoldsPair(cfg, After(cfg, s, actions), v, pair)
    && After(cfg, s, actions).store[v].next == s.store[v].next
  }

  lemma StepThenHold(cfg: Config, s: State, a: Action, v: VolumeId, pair: Keypair)
    requires Enabled(s, a) && !Touches(a, v) && v in s.store && v in Apply(cfg, s, a).store
    requires Apply(cfg, s, a).store[v].next == s.store[v].next && CanHold(cfg, Apply(cfg, s, a), v, pair)
    ensures CanHold(cfg, s, v, pair)
  {
    hide Apply, Enabled, Touches;
    var rest :| LeadsToPair(cfg, Apply(cfg, s, a), rest, v, pair);
    var actions := [a] + rest;
    assert actions[1..] == rest;
    assert forall i :: 0 < i < |actions| ==> actions[i] == rest[i - 1];
    assert LeadsToPair(cfg, s, actions, v, pair);
  }

  /** What the visit at hand would write back: the key, if not read yet, is the one on the volume. */
  function WrittenBack(cfg: Config, s: State, v: VolumeId): Keypair
    requires HasRead(s, v) && v in s.store && cfg.manager.key in s.store[v].files
  {
    Keypair(s.loop.at.cert, if s.loop.at.CertRead? then s.store[v].files[cfg.manager.key] else s.loop.at.key)
  }

  /** Steps from here to the write. */
  function Distance(at: Visit): nat {
    match at case CertRead(_) => 5 case PairRead(_, _) => 4 case CaRead(_, _, _) => 3 case Rewrite(_, _) => 2
             case _ => 1
  }

  /** Once a visit has read the certificate, it can go on to write back what it read: a bundle change makes it. */
  lemma {:induction false} VisitWritesBack(cfg: Config, s: State, v: VolumeId)
    requires SameKeypairNames(cfg) && !s.crashed && HasRead(s, v)
    requires v in s.store && cfg.manager.key in s.store[v].files
    ensures CanHold(cfg, s, v, WrittenBack(cfg, s, v))
    decreases Distance(s.loop.at), AtVolume(s) && s.loop.at.CaRead? && s.loop.at.ca == s.bundle
  {
    var at := s.loop.at;
    var a := if at.CaRead? && at.ca == s.bundle then Reload(Some(at.ca + [0])) else Visit(!at.PairRead?);
    var t := Apply(cfg, s, a);
    if at.Put? {
      assert LeadsToPair(cfg, t, [], v, WrittenBack(cfg, s, v));
    } else {
      VisitWritesBack(cfg, t, v);
    }
    StepThenHold(cfg, s, a, v, WrittenBack(cfg, s, v));
  }

  /** No continuation without a write of the volume's own changes its keypair. */
  ghost predicate SafeFromPasses(cfg: Config, s: State, v: VolumeId, pair: Keypair) {
    forall actions :: Runs(cfg, s, actions) && NoTouch(actions, v) ==> HoldsPair(cfg, After(cfg, s, actions), v, pair)
  }

  /**
   Passes keep a volume's keypair in every continuation exactly when the pass under way, if it has read
   any of the volume's keypair, has read this one.
   */
  lemma SafeFromPassesExactly(cfg: Config, s: State, v: VolumeId, pair: Keypair)
    requires SameKeypairNames(cfg) && !s.crashed && HoldsPair(cfg, s, v, pair)
    ensures SafeFromPasses(cfg, s, v, pair) <==> ReadMatches(s, v, pair)
  {
    hide Apply, Runs, After;
    if ReadMatches(s, v, pair) {
      forall actions | Runs(cfg, s, actions) && NoTouch(actions, v)
        ensures HoldsPair(cfg, After(cfg, s, actions), v, pair)
      {
        RunKeepsPair(cfg, s, actions, v, pair);
      }
    } else {
      VisitWritesBack(cfg, s, v);
      var actions :| LeadsToPair(cfg, s, actions, v, WrittenBack(cfg, s, v));
      assert !HoldsPair(cfg, After(cfg, s, actions), v, pair);
    }
  }

  // ---------- Keypair writes and renewal times ----------

  /** The renewal time in the metadata is the one computed from the chain on the volume. */
  predicate RenewalFollows(cfg: Config, s: State, v: VolumeId) {
    && v in s.store && s.store[v].next.Some? && cfg.driver.cert in s.store[v].files
    && NextIssuance(cfg.decode(s.store[v].files[cfg.driver.cert])) == At(s.store[v].next.value)
  }

  /** Writers in progress carry the renewal time of their own chain. */
  predicate WritersSound(cfg: Config, s: State) {
    forall v :: v in s.writers && s.writers[v].Fetched? ==>
      NextIssuance(cfg.decode(s.writers[v].pair.chain)) == At(s.writers[v].next)
  }

  lemma StepWritersSound(cfg: Config, s: State, a: Action)
    requires WritersSound(cfg, s) && Enabled(s, a)
    ensures WritersSound(cfg, Apply(cfg, s, a))
  {
    hide NextIssuance;
  }

  lemma {:induction false} RunWritersSound(cfg: Config, s: State, actions: seq<Action>)
    requires WritersSound(cfg, s) && Runs(cfg, s, actions)
    ensures WritersSound(cfg, After(cfg, s, actions))
    decreases |actions|
  {
    hide Apply, Enabled, WritersSound;
    if actions != [] {
      StepWritersSound(cfg, s, actions[0]);
      RunWritersSound(cfg, Apply(cfg, s, actions[0]), actions[1..]);
    }
  }

  /** The volume has its keypair files, and its chain has this renewal time. */
  predicate OnTime(cfg: Config, s: State, v: VolumeId, time: int) {
    && v in s.store && cfg.driver.cert in s.store[v].files && cfg.driver.key in s.store[v].files
    && NextIssuance(cfg.decode(s.store[v].files[cfg.driver.cert])) == At(time)
  }

  /** So has the chain that the visit has read of it, if it has read one. */
  predicate ReadOnTime(cfg: Config, s: State, v: VolumeId, time: int) {
    HasRead(s, v) ==> NextIssuance(cfg.decode(s.loop.at.cert)) == At(time)
  }

  lemma StepKeepsTime(cfg: Config, s: State, a: Action, v: VolumeId, time: int)
    requires SameKeypairNames(cfg) && Enabled(s, a) && !Touches(a, v)
    requires OnTime(cfg, s, v, time) && ReadOnTime(cfg, s, v, time)
    ensures var t := Apply(cfg, s, a);
      OnTime(cfg, t, v, time) && ReadOnTime(cfg, t, v, time) && t.store[v].next == s.store[v].next
  {
    hide NextIssuance;
  }

  lemma {:induction false} RunKeepsTime(cfg: Config, s: State, actions: seq<Action>, v: VolumeId, time: int)
    requires SameKeypairNames(cfg) && Runs(cfg, s, actions) && NoTouch(actions, v)
    requires OnTime(cfg, s, v, time) && ReadOnTime(cfg, s, v, time)
    ensures var end := After(cfg, s, actions);
      && OnTime(cfg, end, v, time) && ReadOnTime(cfg, end, v, time)
      && end.store[v].next == s.store[v].next
      && (v in s.writers && s.writers[v].Stored? ==> v in end.writers && end.writers[v] == s.writers[v])
    decreases |actions|
  {
    hide Apply, Enabled, ReadOnTime, SameKeypairNames, Touches;
    if actions != [] {
      StepKeepsTime(cfg, s, actions[0], v, time);
      if v in s.writers { StepKeepsWriter(cfg, s, actions[0], v); }
      RunKeepsTime(cfg, Apply(cfg, s, actions[0]), actions[1..], v, time);
    }
  }

  /** A keypair write stores its files, later its metadata, and nothing else touches the volume. */
  ghost predicate WriteRun(cfg: Config, s: State, v: VolumeId, between: seq<Action>, after: seq<Action>) {
    && Enabled(s, WriterStore(v, true)) && NoTouch(between, v) && NoTouch(after, v)
    && var t := Apply(cfg, s, WriterStore(v, true));
    && Runs(cfg, t, between) && Enabled(After(cfg, t, between), WriterMeta(v, true))
    && Runs(cfg, Apply(cfg, After(cfg, t, between), WriterMeta(v, true)), after)
  }

  ghost function WriteEnd(cfg: Config, s: State, v: VolumeId, between: seq<Action>, after: seq<Action>): State
    requires WriteRun(cfg, s, v, between, after)
  {
    var u := After(cfg, Apply(cfg, s, WriterStore(v, true)), between);
    After(cfg, Apply(cfg, u, WriterMeta(v, true)), after)
  }

  /** However the write is interleaved, the volume ends up with the keypair written. */
  ghost predicate WriteSticks(cfg: Config, s: State, v: VolumeId, pair: Keypair) {
    forall between, after | WriteRun(cfg, s, v, between, after) ::
      HoldsPair(cfg, WriteEnd(cfg, s, v, between, after), v, pair)
  }

  /** However the write is interleaved, the renewal time ends up that of the chain on the volume. */
  ghost predicate RenewalSticks(cfg: Config, s: State, v: VolumeId) {
    forall between, after | WriteRun(cfg, s, v, between, after) ::
      RenewalFollows(cfg, WriteEnd(cfg, s, v, between, after), v)
  }

  /** A keypair write is about to store its files. */
  predicate AboutToStore(cfg: Config, s: State, v: VolumeId) {
    && SameKeypairNames(cfg) && cfg.driver.ca == cfg.manager.ca
    && Enabled(s, WriterStore(v, true)) && v in s.store
  }

  lemma StoredPair(cfg: Config, s: State, v: VolumeId)
    requires AboutToStore(cfg, s, v)
    ensures var t, w := Apply(cfg, s, WriterStore(v, true)), s.writers[v];
      && HoldsPair(cfg, t, v, w.pair) && t.loop == s.loop && !t.crashed
      && v in t.writers && t.writers[v] == Stored(w.next)
  {
  }

  lemma MetaWritten(cfg: Config, s: State, v: VolumeId)
    requires v in s.store && v in s.writers && Enabled(s, WriterMeta(v, true))
    ensures var t := Apply(cfg, s, WriterMeta(v, true));
      && t.loop == s.loop && !t.crashed && v in t.store
      && t.store[v] == s.store[v].(next := Some(s.writers[v].next))
  {
  }

  /** The write without interruption, and then a visit that writes back what it had read before. */
  lemma StoreThenWriteBack(cfg: Config, s: State, v: VolumeId) returns (after: seq<Action>)
    requires AboutToStore(cfg, s, v) && HasRead(s, v)
    ensures WriteRun(cfg, s, v, [], after)
    ensures var end, w, at := WriteEnd(cfg, s, v, [], after), s.writers[v], s.loop.at;
      && HoldsPair(cfg, end, v, Keypair(at.cert, if at.CertRead? then w.pair.key else at.key))
      && end.store[v].next == Some(w.next)
  {
    hide Apply;
    StoredPair(cfg, s, v);
    var t := Apply(cfg, s, WriterStore(v, true));
    MetaWritten(cfg, t, v);
    var u := Apply(cfg, t, WriterMeta(v, true));
    assert HasRead(u, v);
    VisitWritesBack(cfg, u, v);
    after :| LeadsToPair(cfg, u, after, v, WrittenBack(cfg, u, v));
    assert After(cfg, t, []) == t;
  }

  /** A written keypair stays, however the write is interleaved, exactly when the pass has read nothing else before. */
  lemma WriteSticksExactly(cfg: Config, s: State, v: VolumeId)
    requires AboutToStore(cfg, s, v)
    ensures WriteSticks(cfg, s, v, s.writers[v].pair) <==> ReadMatches(s, v, s.writers[v].pair)
  {
    hide Apply, Runs, After;
    var pair := s.writers[v].pair;
    if ReadMatches(s, v, pair) {
      StoredPair(cfg, s, v);
      forall between, after | WriteRun(cfg, s, v, between, after)
        ensures HoldsPair(cfg, WriteEnd(cfg, s, v, between, after), v, pair)
      {
        var t := Apply(cfg, s, WriterStore(v, true));
        RunKeepsPair(cfg, t, between, v, pair);
        var u := After(cfg, t, between);
        MetaWritten(cfg, u, v);
        RunKeepsPair(cfg, Apply(cfg, u, WriterMeta(v, true)), after, v, pair);
      }
    } else {
      var after := StoreThenWriteBack(cfg, s, v);
      assert !HoldsPair(cfg, WriteEnd(cfg, s, v, [], after), v, pair);
    }
  }

  /**
   The renewal time follows the certificate through every interleaving of a keypair write and whatever
   comes after it, exactly when the pass under way, if it has read the volume's certificate before the
   write, has read one with the same renewal time.
   */
  lemma RenewalFollowsExactly(cfg: Config, s0: State, before: seq<Action>, v: VolumeId)
    requires Init(s0) && Runs(cfg, s0, before) && AboutToStore(cfg, After(cfg, s0, before), v)
    ensures var s := After(cfg, s0, before);
      RenewalSticks(cfg, s, v) <==> ReadOnTime(cfg, s, v, s.writers[v].next)
  {
    hide Runs, After, Apply, NextIssuance;
    RunWritersSound(cfg, s0, before);
    var s := After(cfg, s0, before);
    var time := s.writers[v].next;
    if ReadOnTime(cfg, s, v, time) {
      StoredPair(cfg, s, v);
      forall between, after | WriteRun(cfg, s, v, between, after)
        ensures RenewalFollows(cfg, WriteEnd(cfg, s, v, between, after), v)
      {
        var t := Apply(cfg, s, WriterStore(v, true));
        RunKeepsTime(cfg, t, between, v, time);
        var u := After(cfg, t, between);
        MetaWritten(cfg, u, v);
        RunKeepsTime(cfg, Apply(cfg, u, WriterMeta(v, true)), after, v, time);
      }
    } else {
      var after := StoreThenWriteBack(cfg, s, v);
      assert !RenewalFollows(cfg, WriteEnd(cfg, s, v, [], after), v);
    }
  }

  /**
   Computing the renewal time comes first: whatever the chain, this step changes no file and no metadata.
   A writer goes on exactly for a readable leaf, and the process crashes exactly for a chain without PEM.
   */
  lemma UnreadableChainChangesNothing(cfg: Config, s: State, v: VolumeId, pair: Keypair)
    requires Enabled(s, WriterFetch(v, pair))
    ensures var t := Apply(cfg, s, WriterFetch(v, pair));
      && t.store == s.store && t.loop == s.loop
      && (v in t.writers <==> NextIssuance(cfg.decode(pair.chain)).At?)
      && (t.crashed <==> cfg.decode(pair.chain).NoPem?)
      && (t == s <==> cfg.decode(pair.chain).BadCertificate?)
  {
  }
}
