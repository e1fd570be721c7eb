/**
 The CA manager as a program: the pass over the volumes, and the loop that starts passes. The loop's
 select picks among ready channels; which one it picks, and which storage calls fail, are inputs.
 */
module CaManager {
  import opened Base
  import opened Volumes
  import opened Renewal
  import opened Rotation
  import KeypairWrite

  /** The storage calls of a pass; a fault schedule says which of them fail. */
  datatype Call = ListVolumes | ReadMetadata(v: VolumeId) | ReadCert(v: VolumeId) | ReadKey(v: VolumeId)
                | ReadCa(v: VolumeId) | WriteFiles(v: VolumeId)

  type Faults = Call -> bool

  datatype PassError = ListFailed | MetadataFailed(v: VolumeId) | CertFailed(v: VolumeId) | KeyFailed(v: VolumeId)
                     | WriteFailed(v: VolumeId)

  /** The body of the loop for one volume: its new value, or the error that ends the pass. */
  function Handle(names: Names, bundle: Bytes, v: VolumeId, vol: Volume, io: Faults): Result<Volume, PassError> {
    if io(ReadMetadata(v)) then Err(MetadataFailed(v))
    else if io(ReadCert(v)) || names.cert !in vol.files then Err(CertFailed(v))
    else if io(ReadKey(v)) || names.key !in vol.files then Err(KeyFailed(v))
    else if !io(ReadCa(v)) && HasFile(vol, names.ca, bundle) then Ok(vol)
    else if io(WriteFiles(v)) then Err(WriteFailed(v))
    else Ok(vol.(files := FileSet(names, vol.files[names.cert], vol.files[names.key], bundle)))
  }

  /** The store and the verdict after the rest of a pass. */
  function PassOver(names: Names, bundle: Bytes, store: map<VolumeId, Volume>, ids: seq<VolumeId>, io: Faults)
    : (map<VolumeId, Volume>, Outcome<PassError>)
    requires forall i :: 0 <= i < |ids| ==> ids[i] in store
  {
    if ids == [] then (store, Pass)
    else
      match Handle(names, bundle, ids[0], store[ids[0]], io)
      case Err(e) => (store, Fail(e))
      case Ok(vol) => PassOver(names, bundle, store[ids[0] := vol], ids[1..], io)
  }

  /**
   What happens while the loop waits: a turn of its select (`Watcher`, `Update`, `Done`), its send after an
   event, a step of a retry goroutine, news from either provider, cancellation, or a volume added, removed
   or written.
   */
  datatype Turn =
    | Watcher
    | Send
    | Update(ids: seq<VolumeId>, io: Faults)
    | Done
    | Wake
    | Post
    | Quit
    | Change(read: Option<Bytes>)
    | Published(data: Bytes)
    | Cancelled
    | Added(v: VolumeId)
    | Removed(v: VolumeId)
    | Issued(v: VolumeId, pair: Keypair)

  /** The manager, the channels it waits on, its retry goroutines and the volumes it manages. */
  class Manager {
    const cfg: Config
    var bundle: Bytes
    var cancelled: bool
    var crashed: bool
    var sends: nat
    var token: nat
    var sleeping: nat
    var posting: nat
    var loop: Loop
    var volumes: map<VolumeId, Volume>
    var writes: nat

    /** After Subscribe: nothing pending. */
    constructor (cfg: Config, bundle: Bytes, volumes: map<VolumeId, Volume>)
      ensures this.cfg == cfg && writes == 0
      ensures View() == State(bundle, false, false, 0, 0, 0, 0, Idle, volumes, map[])
    {
      this.cfg := cfg;
      this.bundle := bundle;
      this.volumes := volumes;
      cancelled, crashed, loop := false, false, Idle;
      sends, token, sleeping, posting, writes := 0, 0, 0, 0, 0;
    }

    /** The manager's state as the protocol sees it between two turns. */
    ghost function View(): State
      reads this
    {
      State(bundle, cancelled, crashed, sends, token, sleeping, posting, loop, volumes, map[])
    }

    /** The body of the pass's loop. */
    method UpdateVolume(v: VolumeId, io: Faults) returns (err: Outcome<PassError>)
      requires v in volumes
      modifies this`volumes, this`writes
      ensures match Handle(cfg.manager, bundle, v, old(volumes)[v], io)
              case Err(e) => err == Fail(e) && volumes == old(volumes) && writes == old(writes)
              case Ok(vol) => err == Pass && volumes == old(volumes)[v := vol]
      ensures !io(ReadCa(v)) && HasFile(old(volumes)[v], cfg.manager.ca, bundle) ==>
                volumes == old(volumes) && writes == old(writes)
    {
      var vol := volumes[v];
      if io(ReadMetadata(v)) {
        return Fail(MetadataFailed(v));
      }
      if io(ReadCert(v)) || cfg.manager.cert !in vol.files {
        return Fail(CertFailed(v));
      }
      if io(ReadKey(v)) || cfg.manager.key !in vol.files {
        return Fail(KeyFailed(v));
      }
      if !io(ReadCa(v)) && HasFile(vol, cfg.manager.ca, bundle) {
        assert volumes[v := vol] == volumes;
        return Pass;
      }
      if io(WriteFiles(v)) {
        return Fail(WriteFailed(v));
      }
      var files := FileSet(cfg.manager, vol.files[cfg.manager.cert], vol.files[cfg.manager.key], bundle);
      volumes := volumes[v := vol.(files := files)];
      writes := writes + 1;
      return Pass;
    }

    /** updateRootCAFiles. `ids` is what ListVolumes returns. */
    method UpdateRootCaFiles(ids: seq<VolumeId>, io: Faults) returns (err: Outcome<PassError>)
      requires Enumerates(ids, volumes)
      modifies this`volumes, this`writes
      ensures io(ListVolumes) ==> err == Fail(ListFailed) && volumes == old(volumes) && writes == old(writes)
      ensures !io(ListVolumes) ==> (volumes, err) == PassOver(cfg.manager, bundle, old(volumes), ids, io)
      ensures (forall v :: v in old(volumes) ==> !io(ReadCa(v)) && HasFile(old(volumes)[v], cfg.manager.ca, bundle)) ==>
                volumes == old(volumes) && writes == old(writes)
    {
      hide Handle, HasFile;
      if io(ListVolumes) {
        return Fail(ListFailed);
      }
      ghost var start := volumes;
      ghost var current := forall v :: v in start ==> !io(ReadCa(v)) && HasFile(start[v], cfg.manager.ca, bundle);
      for i := 0 to |ids|
        invariant forall k :: 0 <= k < |ids| ==> ids[k] in volumes
        invariant PassOver(cfg.manager, bundle, start, ids, io) == PassOver(cfg.manager, bundle, volumes, ids[i..], io)
        invariant current ==> volumes == start && writes == old(writes)
      {
        assert ids[i..][0] == ids[i] && ids[i..][1..] == ids[i + 1..];
        var failure := UpdateVolume(ids[i], io);
        if failure.Fail? {
          return failure;
        }
      }
      assert ids[|ids|..] == [];
      return Pass;
    }

    /** The watcher branch of the select, up to its send. */
    method OnEvent()
      requires sends > 0 && loop.Idle?
      modifies this`sends, this`loop
      ensures View() == old(View()).(sends := old(sends) - 1, loop := Holding)
    {
      sends := sends - 1;
      loop := Holding;
    }

    /** The send into the loop's own channel, whatever has got into its slot since the event. */
    method SendToken()
      requires loop.Holding? && token <= 1
      modifies this`token, this`loop
      ensures View() == ApplySendToken(old(View())) && token == 1
      ensures loop.Blocked? <==> old(token) == 1
    {
      if token == 0 {
        token := 1;
        loop := Idle;
      } else {
        loop := Blocked;
      }
    }

    /** The update branch: one pass, and a retry goroutine if it fails. */
    method OnToken(ids: seq<VolumeId>, io: Faults)
      requires token > 0 && loop.Idle? && Enumerates(ids, volumes)
      modifies this`token, this`volumes, this`writes, this`sleeping
      ensures View() == AfterPass(cfg.manager, old(View()), ids, io)
    {
      hide PassOver;
      token := token - 1;
      var err := UpdateRootCaFiles(ids, io);
      if err.Fail? {
        sleeping := sleeping + 1;
      }
    }

    /** One turn. What is not ready is not taken; `ids` is what ListVolumes returns. */
    method Take(turn: Turn)
      requires Live(loop) && token <= 1
      modifies this
      ensures View() == TakeTurn(cfg, old(View()), turn)
    {
      hide AfterPass, Enumerates, NextIssuance, FileSet;
      match turn
      case Watcher =>
        if loop.Idle? && sends > 0 {
          OnEvent();
        }
      case Send =>
        if loop.Holding? {
          SendToken();
        }
      case Update(ids, io) =>
        if loop.Idle? && token > 0 && Enumerates(ids, volumes) {
          OnToken(ids, io);
        }
      case Done =>
        if loop.Idle? && cancelled {
          loop := Exited;
        }
      case Wake =>
        if sleeping > 0 {
          sleeping, posting := sleeping - 1, posting + 1;
        }
      case Post =>
        if posting > 0 && token == 0 {
          posting, token := posting - 1, 1;
        }
      case Quit =>
        if cancelled && sleeping > 0 {
          sleeping := sleeping - 1;
        }
      case Change(read) =>
        if read.Some? && read.value != bundle {
          bundle := read.value;
          sends := sends + 1;
        }
      case Published(data) =>
        bundle := data;
        sends := sends + 1;
      case Cancelled =>
        cancelled := true;
      case Added(v) =>
        if v !in volumes {
          volumes := volumes[v := Volume(map[], None)];
        }
      case Removed(v) =>
        volumes := volumes - {v};
      case Issued(v, pair) =>
        var issuance := NextIssuance(cfg.decode(pair.chain));
        if v in volumes && issuance.NilBlock? {
          crashed := true;
        } else if v in volumes && issuance.At? {
          var files := FileSet(cfg.driver, pair.chain, pair.key, bundle);
          volumes := volumes[v := Volume(files, Some(issuance.time))];
        }
    }

    /** run: turn after turn, until there are no more, the loop returns or blocks, or the process dies. */
    method Run(turns: seq<Turn>)
      requires Live(loop) && token <= 1
      modifies this
      ensures View() == TakeTurns(cfg, old(View()), turns)
    {
      hide TakeTurn;
      ghost var start := View();
      var i := 0;
      assert turns[0..] == turns;
      while i < |turns| && Live(loop) && !crashed
        invariant 0 <= i <= |turns| && token <= 1
        invariant TakeTurns(cfg, start, turns) == TakeTurns(cfg, View(), turns[i..])
      {
        TurnKeeps(cfg, View(), turns[i]);
        assert turns[i..][0] == turns[i] && turns[i..][1..] == turns[i + 1..];
        Take(turns[i]);
        i := i + 1;
      }
    }
  }

  /** The loop waits, in its select or on its own send. */
  predicate Live(loop: Loop) {
    loop.Idle? || loop.Holding?
  }

  /** The state after taking a token and running the pass to its end. */
  function AfterPass(names: Names, s: State, ids: seq<VolumeId>, io: Faults): State
    requires s.token > 0 && Enumerates(ids, s.store)
  {
    var t := s.(token := s.token - 1);
    if io(ListVolumes) then FailPass(t)
    else
      var (after, err) := PassOver(names, s.bundle, s.store, ids, io);
      PassEnd(t, after, err)
  }

  /** The effect of a turn; the protocol's own functions wherever it has one. */
  function TakeTurn(cfg: Config, s: State, turn: Turn): State {
    match turn
    case Watcher => if s.loop.Idle? && s.sends > 0 then s.(sends := s.sends - 1, loop := Holding) else s
    case Send => if s.loop.Holding? then ApplySendToken(s) else s
    case Update(ids, io) =>
      if s.loop.Idle? && s.token > 0 && Enumerates(ids, s.store) then AfterPass(cfg.manager, s, ids, io) else s
    case Done => if s.loop.Idle? && s.cancelled then s.(loop := Exited) else s
    case Wake => if s.sleeping > 0 then s.(sleeping := s.sleeping - 1, posting := s.posting + 1) else s
    case Post => if s.posting > 0 && s.token == 0 then s.(posting := s.posting - 1, token := 1) else s
    case Quit => if s.cancelled && s.sleeping > 0 then s.(sleeping := s.sleeping - 1) else s
    case Change(read) => ApplyReload(s, read)
    case Published(data) => ApplyPublish(s, data)
    case Cancelled => s.(cancelled := true)
    case Added(v) => if v in s.store then s else s.(store := s.store[v := Volume(map[], None)])
    case Removed(v) => s.(store := s.store - {v})
    case Issued(v, pair) => if v in s.store then AfterIssue(cfg, s, v, pair) else s
  }

  /** A keypair write that nothing interrupts. */
  function AfterIssue(cfg: Config, s: State, v: VolumeId, pair: Keypair): State {
    match NextIssuance(cfg.decode(pair.chain))
    case At(t) => s.(store := s.store[v := Volume(FileSet(cfg.driver, pair.chain, pair.key, s.bundle), Some(t))])
    case ParseError => s
    case NilBlock => s.(crashed := true)
  }

  function TakeTurns(cfg: Config, s: State, turns: seq<Turn>): State
    decreases |turns|
  {
    if turns == [] || !Live(s.loop) || s.crashed then s
    else TakeTurns(cfg, TakeTurn(cfg, s, turns[0]), turns[1..])
  }

  lemma TurnKeeps(cfg: Config, s: State, turn: Turn)
    requires s.token <= 1
    ensures TakeTurn(cfg, s, turn).token <= 1 && TakeTurn(cfg, s, turn).writers == s.writers
  {
    hide AfterPass, AfterIssue, Enumerates;
    if turn.Update? && s.token > 0 && Enumerates(turn.ids, s.store) {
      PassKeeps(cfg.manager, s, turn.ids, turn.io);
    } else if turn.Issued? {
      IssueKeeps(cfg, s, turn.v, turn.pair);
    }
  }

  /**
   What the update branch achieves, between its token and its end. No retry goroutine is left exactly when
   the volumes could be listed and every one of them handled; then every CA file is the bundle. Otherwise
   one is left, the volumes before the first that could not be handled are current, and nothing else has
   changed.
   */
  lemma PassOutcome(names: Names, s: State, ids: seq<VolumeId>, io: Faults) returns (done: nat)
    requires s.token > 0 && Enumerates(ids, s.store)
    ensures var t := AfterPass(names, s, ids, io);
      && (t.sleeping == s.sleeping <==>
            !io(ListVolumes) && forall v :: v in s.store ==> Succeeds(names, s.bundle, v, s.store[v], io))
      && (t.sleeping == s.sleeping || t.sleeping == s.sleeping + 1)
      && done <= |ids| && t.store.Keys == s.store.Keys
      && (t.sleeping == s.sleeping ==> done == |ids|)
      && (io(ListVolumes) ==> done == 0)
      && (!io(ListVolumes) && done < |ids| ==> !Succeeds(names, s.bundle, ids[done], s.store[ids[done]], io))
      && (forall i :: 0 <= i < done ==>
            Succeeds(names, s.bundle, ids[i], s.store[ids[i]], io) && HasFile(t.store[ids[i]], names.ca, s.bundle))
      && (forall v :: v in s.store && v !in ids[..done] ==> t.store[v] == s.store[v])
      && (t.sleeping == s.sleeping ==> forall v :: v in s.store ==> HasFile(t.store[v], names.ca, s.bundle))
      && t.loop.Idle? && t == s.(token := s.token - 1, sleeping := t.sleeping, store := t.store, loop := t.loop)
  {
    hide PassOver, Succeeds, HasFile, Handle;
    if io(ListVolumes) {
      done := 0;
    } else {
      done := PassContract(names, s.bundle, s.store, ids, io);
      if forall i :: 0 <= i < |ids| ==> Succeeds(names, s.bundle, ids[i], s.store[ids[i]], io) {
        forall v | v in s.store
          ensures Succeeds(names, s.bundle, v, s.store[v], io)
          ensures HasFile(AfterPass(names, s, ids, io).store[v], names.ca, s.bundle)
        {
          assert v in ids;
        }
      } else {
        assert ids[done] in s.store;
      }
    }
  }

  /** The step of the protocol, if it can be taken. */
  function StepIf(cfg: Config, s: State, a: Action): State {
    if Enabled(s, a) then Apply(cfg, s, a) else s
  }

  /** The turns of the loop and its retry goroutines are the steps of the protocol that their names say. */
  lemma TurnIsStep(cfg: Config, s: State, turn: Turn)
    requires Live(s.loop) && !s.crashed && s.token <= 1
    ensures var t := TakeTurn(cfg, s, turn);
      match turn
      case Watcher => t == StepIf(cfg, s, TakeEvent)
      case Send => t == StepIf(cfg, s, SendToken)
      case Update(ids, io) => !(s.loop.Idle? && s.token > 0 && Enumerates(ids, s.store)) ==> t == s
      case Done => t == StepIf(cfg, s, Exit)
      case Wake => t == StepIf(cfg, s, RetryWakes)
      case Post => t == StepIf(cfg, s, RetryPosts)
      case Quit => t == StepIf(cfg, s, RetryQuits)
      case _ => true
  {
    hide AfterPass, AfterIssue, Enumerates, ApplyVisit;
  }

  /** So are those of its surroundings. */
  lemma OutsideIsStep(cfg: Config, s: State, turn: Turn)
    requires !s.crashed
    ensures var t := TakeTurn(cfg, s, turn);
      match turn
      case Change(read) => t == StepIf(cfg, s, Reload(read))
      case Published(data) => t == StepIf(cfg, s, Publish(data))
      case Cancelled => t == StepIf(cfg, s, Cancel)
      case Added(v) => t == StepIf(cfg, s, Register(v))
      case Removed(v) => t == StepIf(cfg, s, Remove(v))
      case Issued(v, _) => v !in s.store ==> t == s
      case _ => true
  {
    hide AfterPass, AfterIssue, Enumerates, ApplyVisit;
    if turn.Removed? && turn.v !in s.store { assert s.store - {turn.v} == s.store; }
  }

  /** What a keypair write between two turns leaves behind. */
  lemma IssueOutcome(cfg: Config, s: State, v: VolumeId, pair: Keypair)
    requires !s.crashed && v in s.store
    ensures var t := TakeTurn(cfg, s, Issued(v, pair)); var leaf := cfg.decode(pair.chain);
      && (leaf.BadCertificate? ==> t == s)
      && (leaf.NoPem? ==> t == s.(crashed := true))
      && (leaf.Leaf? ==>
            && t == s.(store := t.store) && t.store.Keys == s.store.Keys
            && (forall w :: w in s.store && w != v ==> t.store[w] == s.store[w])
            && t.store[v].next == Some(NextIssuance(leaf).time)
            && t.store[v].files == KeypairWrite.Data(cfg.driver, pair, Some(s.bundle)))
  {
    hide FileSet, RenewAt;
  }

  lemma PassKeeps(names: Names, s: State, ids: seq<VolumeId>, io: Faults)
    requires s.token > 0 && Enumerates(ids, s.store)
    ensures var t := AfterPass(names, s, ids, io); t.token == s.token - 1 && t.writers == s.writers
  {
    hide PassOver;
  }

  lemma IssueKeeps(cfg: Config, s: State, v: VolumeId, pair: Keypair)
    ensures var t := AfterIssue(cfg, s, v, pair); t.token == s.token && t.writers == s.writers
  {
    hide NextIssuance, FileSet;
  }

  // ---------- What a pass achieves ----------

  predicate Distinct(ids: seq<VolumeId>) {
    forall i, j :: 0 <= i < j < |ids| ==> ids[i] != ids[j]
  }

  /** The calls that read the volume succeed, its keypair files exist, and the write succeeds if there has to be one. */
  predicate Succeeds(names: Names, bundle: Bytes, v: VolumeId, vol: Volume, io: Faults) {
    && !io(ReadMetadata(v)) && !io(ReadCert(v)) && !io(ReadKey(v))
    && names.cert in vol.files && names.key in vol.files
    && ((!io(ReadCa(v)) && HasFile(vol, names.ca, bundle)) || !io(WriteFiles(v)))
  }

  lemma HandleSucceeds(names: Names, bundle: Bytes, v: VolumeId, vol: Volume, io: Faults)
    ensures Handle(names, bundle, v, vol, io).Ok? <==> Succeeds(names, bundle, v, vol, io)
  {
  }

  /** A volume that is handled ends up current, with its renewal time untouched. */
  lemma HandledIsCurrent(names: Names, bundle: Bytes, v: VolumeId, vol: Volume, io: Faults)
    requires Handle(names, bundle, v, vol, io).Ok?
    ensures var after := Handle(names, bundle, v, vol, io).value;
      HasFile(after, names.ca, bundle) && after.next == vol.next
  {
  }

  /** The error of a volume that cannot be handled names the first call that failed it. */
  lemma HandleError(names: Names, bundle: Bytes, v: VolumeId, vol: Volume, io: Faults)
    ensures var r := Handle(names, bundle, v, vol, io);
      var noCert, noKey := io(ReadCert(v)) || names.cert !in vol.files, io(ReadKey(v)) || names.key !in vol.files;
      && (r == Err(MetadataFailed(v)) <==> io(ReadMetadata(v)))
      && (r == Err(CertFailed(v)) <==> !io(ReadMetadata(v)) && noCert)
      && (r == Err(KeyFailed(v)) <==> !io(ReadMetadata(v)) && !noCert && noKey)
      && (r == Err(WriteFailed(v)) <==>
            && !io(ReadMetadata(v)) && !noCert && !noKey && io(WriteFiles(v))
            && (io(ReadCa(v)) || !HasFile(vol, names.ca, bundle)))
  {
  }

  /**
   A pass stops at the first volume it cannot handle, with that volume's error. Up to there each volume is
   handled and its CA file is the bundle; from there on nothing is touched; and no renewal time changes
   anywhere.
   */
  lemma {:induction false} PassContract(names: Names, bundle: Bytes, store: map<VolumeId, Volume>,
                                        ids: seq<VolumeId>, io: Faults) returns (done: nat)
    requires (forall i :: 0 <= i < |ids| ==> ids[i] in store) && Distinct(ids)
    ensures var (after, err) := PassOver(names, bundle, store, ids, io);
      && done <= |ids| && after.Keys == store.Keys
      && (err.Pass? <==> done == |ids|)
      && (err.Pass? <==> forall i :: 0 <= i < |ids| ==> Succeeds(names, bundle, ids[i], store[ids[i]], io))
      && (forall i :: 0 <= i < done ==> Succeeds(names, bundle, ids[i], store[ids[i]], io))
      && (done < |ids| ==> !Succeeds(names, bundle, ids[done], store[ids[done]], io))
      && (done < |ids| ==> Handle(names, bundle, ids[done], store[ids[done]], io) == Err(err.error))
      && (forall i :: 0 <= i < done ==> Handle(names, bundle, ids[i], store[ids[i]], io) == Ok(after[ids[i]]))
      && (forall i :: 0 <= i < done ==> HasFile(after[ids[i]], names.ca, bundle))
      && (forall v :: v in store && v !in ids[..done] ==> after[v] == store[v])
      && (forall v :: v in store ==> after[v].next == store[v].next)
    decreases |ids|
  {
    hide Handle, HasFile, Succeeds;
    if ids == [] {
      done := 0;
    } else {
      var v := ids[0];
      HandleSucceeds(names, bundle, v, store[v], io);
      match Handle(names, bundle, v, store[v], io)
      case Err(e) =>
        done := 0;
        assert !Succeeds(names, bundle, ids[0], store[ids[0]], io);
      case Ok(vol) =>
        HandledIsCurrent(names, bundle, v, store[v], io);
        var next := store[v := vol];
        assert next.Keys == store.Keys;
        var rest := PassContract(names, bundle, next, ids[1..], io);
        done := rest + 1;
        var after := PassOver(names, bundle, store, ids, io).0;
        assert ids[..done] == [v] + ids[1..][..rest];
        assert v !in ids[1..];
        assert after[v] == vol && HasFile(after[v], names.ca, bundle);
        assert forall i :: 0 < i < |ids| ==> ids[i] == ids[1..][i - 1] && next[ids[i]] == store[ids[i]];
    }
  }

  lemma {:induction false} CurrentUnchanged(names: Names, bundle: Bytes, store: map<VolumeId, Volume>,
                                            ids: seq<VolumeId>, io: Faults)
    requires forall i :: 0 <= i < |ids| ==>
      ids[i] in store && !io(ReadCa(ids[i])) && HasFile(store[ids[i]], names.ca, bundle)
    ensures PassOver(names, bundle, store, ids, io).0 == store
    decreases |ids|
  {
    if ids != [] && Handle(names, bundle, ids[0], store[ids[0]], io).Ok? {
      assert store[ids[0] := store[ids[0]]] == store;
      CurrentUnchanged(names, bundle, store, ids[1..], io);
    }
  }

  /** After a successful pass, a second one in which the CA files can be read changes no volume. */
  lemma SecondPassChangesNothing(names: Names, bundle: Bytes, store: map<VolumeId, Volume>, ids: seq<VolumeId>,
                                 io: Faults, io2: Faults)
    requires Enumerates(ids, store) && PassOver(names, bundle, store, ids, io).1.Pass?
    requires forall v :: v in store ==> !io2(ReadCa(v))
    ensures var after := PassOver(names, bundle, store, ids, io).0;
      Enumerates(ids, after) && PassOver(names, bundle, after, ids, io2).0 == after
  {
    hide PassOver;
    var _ := PassContract(names, bundle, store, ids, io);
    CurrentUnchanged(names, bundle, PassOver(names, bundle, store, ids, io).0, ids, io2);
  }

  // ---------- Certificates and keys ----------

  /** Volumes that hold both keypair files hold the same bytes in them afterwards. */
  predicate PairsKept(names: Names, store: map<VolumeId, Volume>, after: map<VolumeId, Volume>) {
    forall v :: v in store && names.cert in store[v].files && names.key in store[v].files ==>
      && v in after
      && HasFile(after[v], names.cert, store[v].files[names.cert])
      && HasFile(after[v], names.key, store[v].files[names.key])
  }

  lemma {:induction false} DistinctNamesKeepPairs(names: Names, bundle: Bytes, store: map<VolumeId, Volume>,
                                                  ids: seq<VolumeId>, io: Faults)
    requires names.ca != names.cert && names.ca != names.key
    requires forall i :: 0 <= i < |ids| ==> ids[i] in store
    ensures PairsKept(names, store, PassOver(names, bundle, store, ids, io).0)
    decreases |ids|
  {
    if ids != [] && Handle(names, bundle, ids[0], store[ids[0]], io).Ok? {
      var next := store[ids[0] := Handle(names, bundle, ids[0], store[ids[0]], io).value];
      DistinctNamesKeepPairs(names, bundle, next, ids[1..], io);
    }
  }

  ghost predicate AlwaysKeepsPairs(names: Names) {
    forall bundle: Bytes, store: map<VolumeId, Volume>, ids: seq<VolumeId>, io: Faults | Enumerates(ids, store) ::
      PairsKept(names, store, PassOver(names, bundle, store, ids, io).0)
  }

  /** Passes keep every keypair, whatever the store and the faults, exactly when the CA file has its own name. */
  lemma KeepsPairsExactly(names: Names)
    ensures AlwaysKeepsPairs(names) <==> names.ca != names.cert && names.ca != names.key
  {
    if names.ca != names.cert && names.ca != names.key {
      forall bundle: Bytes, store: map<VolumeId, Volume>, ids: seq<VolumeId>, io: Faults | Enumerates(ids, store)
        ensures PairsKept(names, store, PassOver(names, bundle, store, ids, io).0)
      {
        DistinctNamesKeepPairs(names, bundle, store, ids, io);
      }
    } else {
      SharedNameLosesPair(names);
    }
  }

  lemma SharedNameLosesPair(names: Names)
    requires names.ca == names.cert || names.ca == names.key
    ensures !AlwaysKeepsPairs(names)
  {
    var bundle: Bytes := [1];
    var vol := Volume(map[names.cert := [0], names.key := [0]], None);
    var store := map["v" := vol];
    var io: Faults := call => false;
    assert ["v"][0] == "v" && Enumerates(["v"], store);
    var files := FileSet(names, vol.files[names.cert], vol.files[names.key], bundle);
    assert Handle(names, bundle, "v", vol, io) == Ok(vol.(files := files));
    var next := store["v" := vol.(files := files)];
    assert ["v"][1..] == [] && PassOver(names, bundle, next, [], io) == (next, Pass);
    assert PassOver(names, bundle, store, ["v"], io).0 == next;
    assert !PairsKept(names, store, next);
  }

  // ---------- The pass inside the protocol ----------

  /** Where an uninterrupted pass leaves the protocol. */
  function PassEnd(s: State, after: map<VolumeId, Volume>, err: Outcome<PassError>): State {
    if err.Pass? then s.(loop := Idle, store := after) else FailPass(s.(store := after))
  }

  /** One call on the volume at hand. */
  lemma ReachVisit(cfg: Config, s0: State, s: State, ok: bool)
    requires Reachable(cfg, s0, s) && AtVolume(s) && !s.crashed
    ensures Reachable(cfg, s0, ApplyVisit(cfg, s, ok))
  {
    hide Reachable, Runs, After, ApplyVisit;
    ReachStep(cfg, s0, s, Visit(ok));
  }

  /** The last two calls: the bundle is read and the files are written. */
  lemma ProtocolRewrite(cfg: Config, s0: State, s: State, io: Faults)
    requires Reachable(cfg, s0, s) && !s.crashed && AtVolume(s) && s.loop.at.Rewrite? && s.loop.todo[0] in s.store
    ensures var v, at := s.loop.todo[0], s.loop.at;
      var files := FileSet(cfg.manager, at.cert, at.key, s.bundle);
      if io(WriteFiles(v)) then Reachable(cfg, s0, FailPass(s))
      else Reachable(cfg, s0, s.(loop := Visiting(s.loop.todo[1..], Begin),
                                 store := s.store[v := s.store[v].(files := files)]))
  {
    hide Reachable, FileSet;
    var v, at := s.loop.todo[0], s.loop.at;
    ReachVisit(cfg, s0, s, true);
    ReachVisit(cfg, s0, Continue(s, Put(at.cert, at.key, s.bundle)), !io(WriteFiles(v)));
  }

  /** The calls from the CA file on. */
  lemma ProtocolCompare(cfg: Config, s0: State, s: State, io: Faults)
    requires Reachable(cfg, s0, s) && !s.crashed && AtVolume(s) && s.loop.at.PairRead? && s.loop.todo[0] in s.store
    ensures var v, at := s.loop.todo[0], s.loop.at;
      var files := FileSet(cfg.manager, at.cert, at.key, s.bundle);
      if !io(ReadCa(v)) && HasFile(s.store[v], cfg.manager.ca, s.bundle) then Reachable(cfg, s0, Next(s))
      else if io(WriteFiles(v)) then Reachable(cfg, s0, FailPass(s))
      else Reachable(cfg, s0, Next(s).(store := s.store[v := s.store[v].(files := files)]))
  {
    hide Reachable, FileSet;
    var v, at := s.loop.todo[0], s.loop.at;
    ReachVisit(cfg, s0, s, !io(ReadCa(v)));
    if !io(ReadCa(v)) && cfg.manager.ca in s.store[v].files {
      ReachVisit(cfg, s0, Continue(s, CaRead(at.cert, at.key, s.store[v].files[cfg.manager.ca])), true);
    }
    if io(ReadCa(v)) || !HasFile(s.store[v], cfg.manager.ca, s.bundle) {
      ProtocolRewrite(cfg, s0, Continue(s, Rewrite(at.cert, at.key)), io);
    }
  }

  /** One volume, handled without interruption by the calls of the protocol. */
  lemma ProtocolVolume(cfg: Config, s0: State, s: State, io: Faults)
    requires Reachable(cfg, s0, s) && !s.crashed && AtVolume(s) && s.loop.at.Begin? && s.loop.todo[0] in s.store
    ensures var v := s.loop.todo[0];
      match Handle(cfg.manager, s.bundle, v, s.store[v], io)
      case Err(_) => Reachable(cfg, s0, FailPass(s))
      case Ok(vol) => Reachable(cfg, s0, Next(s).(store := s.store[v := vol]))
  {
    hide Reachable, FileSet, HasFile;
    var v := s.loop.todo[0];
    var files := s.store[v].files;
    ReachVisit(cfg, s0, s, !io(ReadMetadata(v)));
    if !io(ReadMetadata(v)) {
      ReachVisit(cfg, s0, Continue(s, Located), !io(ReadCert(v)));
      if !io(ReadCert(v)) && cfg.manager.cert in files {
        ReachVisit(cfg, s0, Continue(s, CertRead(files[cfg.manager.cert])), !io(ReadKey(v)));
        if !io(ReadKey(v)) && cfg.manager.key in files {
          ProtocolCompare(cfg, s0, Continue(s, PairRead(files[cfg.manager.cert], files[cfg.manager.key])), io);
          assert Next(s).(store := s.store[v := s.store[v]]) == Next(s);
        }
      }
    }
  }

  /** The sequential pass is one of the protocol's runs: same store, same verdict, same retry. */
  lemma {:induction false} ProtocolPass(cfg: Config, s0: State, s: State, io: Faults)
    requires Reachable(cfg, s0, s) && !s.crashed && s.loop.Visiting? && s.loop.at.Begin?
    requires forall i :: 0 <= i < |s.loop.todo| ==> s.loop.todo[i] in s.store
    ensures var (after, err) := PassOver(cfg.manager, s.bundle, s.store, s.loop.todo, io);
      Reachable(cfg, s0, PassEnd(s, after, err))
    decreases |s.loop.todo|
  {
    hide Reachable, Runs, After, Handle;
    if s.loop.todo == [] {
      ReachStep(cfg, s0, s, Finish);
    } else {
      ProtocolVolume(cfg, s0, s, io);
      var v := s.loop.todo[0];
      match Handle(cfg.manager, s.bundle, v, s.store[v], io)
      case Err(_) =>
      case Ok(vol) => ProtocolPass(cfg, s0, Next(s).(store := s.store[v := vol]), io);
    }
  }

  /** Taking a token and running the pass to its end is a run of the protocol. */
  lemma PassReachable(cfg: Config, s: State, ids: seq<VolumeId>, io: Faults)
    requires s.loop.Idle? && !s.crashed && s.token > 0 && Enumerates(ids, s.store)
    ensures Reachable(cfg, s, AfterPass(cfg.manager, s, ids, io))
  {
    hide Reachable, PassOver;
    ReachSelf(cfg, s);
    ReachStep(cfg, s, s, TakeToken);
    var listing := s.(token := s.token - 1, loop := Listing);
    ReachStep(cfg, s, listing, List(ids, !io(ListVolumes)));
    if !io(ListVolumes) {
      ProtocolPass(cfg, s, listing.(loop := Visiting(ids, Begin)), io);
    }
  }

  /** An uninterrupted keypair write is a run of the protocol. */
  lemma IssueReachable(cfg: Config, s: State, v: VolumeId, pair: Keypair)
    requires !s.crashed && v in s.store && v !in s.writers
    ensures Reachable(cfg, s, AfterIssue(cfg, s, v, pair))
  {
    hide Reachable, FileSet, RenewAt;
    ReachSelf(cfg, s);
    if NextIssuance(cfg.decode(pair.chain)).At? {
      KeypairWrite.ProtocolWrite(cfg, s, v, pair);
    } else {
      ReachStep(cfg, s, s, WriterFetch(v, pair));
    }
  }

  lemma TurnReachable(cfg: Config, s: State, turn: Turn)
    requires Live(s.loop) && !s.crashed && s.token <= 1 && s.writers == map[]
    ensures Reachable(cfg, s, TakeTurn(cfg, s, turn))
  {
    hide Reachable, AfterPass, AfterIssue, ApplyVisit;
    ReachSelf(cfg, s);
    match turn
    case Watcher => if s.loop.Idle? && s.sends > 0 { ReachStep(cfg, s, s, TakeEvent); }
    case Send => if s.loop.Holding? { ReachStep(cfg, s, s, SendToken); }
    case Update(ids, io) =>
      if s.loop.Idle? && s.token > 0 && Enumerates(ids, s.store) { PassReachable(cfg, s, ids, io); }
    case Done => if s.loop.Idle? && s.cancelled { ReachStep(cfg, s, s, Exit); }
    case Wake => if s.sleeping > 0 { ReachStep(cfg, s, s, RetryWakes); }
    case Post => if s.posting > 0 && s.token == 0 { ReachStep(cfg, s, s, RetryPosts); }
    case Quit => if s.cancelled && s.sleeping > 0 { ReachStep(cfg, s, s, RetryQuits); }
    case Change(read) => ReachStep(cfg, s, s, Reload(read));
    case Published(data) => ReachStep(cfg, s, s, Publish(data));
    case Cancelled => if !s.cancelled { ReachStep(cfg, s, s, Cancel); }
    case Added(v) => if v !in s.store { ReachStep(cfg, s, s, Register(v)); }
    case Removed(v) => if v in s.store { ReachStep(cfg, s, s, Remove(v)); } else { assert s.store - {v} == s.store; }
    case Issued(v, pair) => if v in s.store { IssueReachable(cfg, s, v, pair); }
  }

  /** Whatever turns the program takes, what it does is a run of the protocol. */
  lemma {:induction false} LoopRefinesProtocol(cfg: Config, s: State, turns: seq<Turn>)
    requires Live(s.loop) && s.token <= 1 && s.writers == map[]
    ensures Reachable(cfg, s, TakeTurns(cfg, s, turns))
    decreases |turns|
  {
    hide Reachable, TakeTurn;
    ReachSelf(cfg, s);
    if turns != [] && !s.crashed {
      var t := TakeTurn(cfg, s, turns[0]);
      TurnReachable(cfg, s, turns[0]);
      TurnKeeps(cfg, s, turns[0]);
      if Live(t.loop) {
        LoopRefinesProtocol(cfg, t, turns[1..]);
        ReachTrans(cfg, s, t, TakeTurns(cfg, t, turns[1..]));
      }
    }
  }
}
