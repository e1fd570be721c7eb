/**
 Trust bundle rotation as a concurrent protocol: the bundle watcher, its blocked sends to the CA
 manager, the manager's select loop with its one-slot channel and retry goroutines, the pass over the
 volumes, and the driver's own writes to the same volumes.

 Each action is one step of one goroutine. Nothing is assumed atomic except a single storage call, a single
 read of the bundle or a single channel operation: the loop receives an event and sends a token for it in two
 steps, the pass handles a volume in seven (metadata, certificate, key and CA file, the comparison, the
 bundle to write, the write), and a keypair write takes three (the bundle, the files, the metadata).
 */
module Rotation {
  import opened Base
  import opened Volumes
  import opened Renewal

  /** File names of the driver and of the manager, and the meaning of a PEM chain. */
  datatype Config = Config(driver: Names, manager: Names, decode: Bytes -> Decoded)

  /** A keypair write in progress: the bundle has been read, or the files have been written. */
  datatype Writer = Fetched(pair: Keypair, ca: Bytes, next: int) | Stored(next: int)

  /** How far the pass has got with one volume, and what it has read of it. */
  datatype Visit = Begin
                 | Located
                 | CertRead(cert: Bytes)
                 | PairRead(cert: Bytes, key: Bytes)
                 | CaRead(cert: Bytes, key: Bytes, ca: Bytes)
                 | Rewrite(cert: Bytes, key: Bytes)
                 | Put(cert: Bytes, key: Bytes, ca: Bytes)

  /**
   Where the manager's loop is. `Holding` is between receiving an event and sending a token for it. During
   a pass `todo[0]` is the volume being handled.
   */
  datatype Loop = NotStarted | Idle | Holding | Blocked | Exited | Listing
                | Visiting(todo: seq<VolumeId>, at: Visit)

  /**
   `sends` counts blocked sends to the manager's subscription, `token` the values buffered in the update
   channel, `sleeping` and `posting` the retry goroutines before and after their timer. A crashed process
   takes no further step.
   */
  datatype State = State(
    bundle: Bytes,
    cancelled: bool,
    crashed: bool,
    sends: nat,
    token: nat,
    sleeping: nat,
    posting: nat,
    loop: Loop,
    store: map<VolumeId, Volume>,
    writers: map<VolumeId, Writer>)

  /**
   `Reload` is the file provider's re-read of the bundle, `Publish` the memory provider's input. `Visit` is
   the next call on the volume at hand; `ok` says whether a storage call succeeds.
   */
  datatype Action =
    | Subscribe
    | Reload(read: Option<Bytes>)
    | Publish(data: Bytes)
    | TakeEvent
    | SendToken
    | TakeToken
    | List(ids: seq<VolumeId>, ok: bool)
    | Visit(ok: bool)
    | Finish
    | RetryWakes
    | RetryPosts
    | RetryQuits
    | Cancel
    | Exit
    | Register(v: VolumeId)
    | Remove(v: VolumeId)
    | WriterFetch(v: VolumeId, pair: Keypair)
    | WriterStore(v: VolumeId, ok: bool)
    | WriterMeta(v: VolumeId, ok: bool)

  predicate Enumerates(ids: seq<VolumeId>, store: map<VolumeId, Volume>) {
    && (forall v :: v in store ==> v in ids)
    && (forall i :: 0 <= i < |ids| ==> ids[i] in store)
    && (forall i, j :: 0 <= i < j < |ids| ==> ids[i] != ids[j])
  }

  /** The loop is in the middle of a pass, with a volume at hand. */
  predicate AtVolume(s: State) {
    s.loop.Visiting? && s.loop.todo != []
  }

  predicate Enabled(s: State, a: Action) {
    !s.crashed && EnabledAlive(s, a)
  }

  predicate EnabledAlive(s: State, a: Action) {
    match a
    case Subscribe => s.loop.NotStarted?
    case Reload(_) => true
    case Publish(_) => true
    case TakeEvent => s.loop.Idle? && s.sends > 0
    case SendToken => s.loop.Holding?
    case TakeToken => s.loop.Idle? && s.token > 0
    case List(ids, ok) => s.loop.Listing? && (ok ==> Enumerates(ids, s.store))
    case Visit(_) => AtVolume(s)
    case Finish => s.loop.Visiting? && s.loop.todo == []
    case RetryWakes => s.sleeping > 0
    case RetryPosts => s.posting > 0 && s.token == 0
    case RetryQuits => s.cancelled && s.sleeping > 0
    case Cancel => !s.cancelled
    case Exit => s.cancelled && s.loop.Idle?
    case Register(v) => v !in s.store
    case Remove(v) => v in s.store
    case WriterFetch(v, _) => v in s.store && v !in s.writers
    case WriterStore(v, _) => v in s.writers && s.writers[v].Fetched?
    case WriterMeta(v, _) => v in s.writers && s.writers[v].Stored?
  }

  /** A failed pass ends at once and leaves a retry goroutine behind. */
  function FailPass(s: State): State {
    s.(loop := Idle, sleeping := s.sleeping + 1)
  }

  /** The bundle is set, and a send is started to the manager if it has subscribed. */
  function ApplyPublish(s: State, data: Bytes): State {
    s.(bundle := data, sends := s.sends + if s.loop.NotStarted? then 0 else 1)
  }

  /** The file provider ignores a failed read and an unchanged file. */
  function ApplyReload(s: State, read: Option<Bytes>): State {
    if read.None? || read.value == s.bundle then s else ApplyPublish(s, read.value)
  }

  /** The loop sends a token for the event it holds, or blocks on its own send when the slot is taken. */
  function ApplySendToken(s: State): State {
    if s.token == 0 then s.(token := 1, loop := Idle) else s.(loop := Blocked)
  }

  /** ReadFile on the volume at hand; None if the call fails, or the volume or the file is not there. */
  function FileRead(s: State, name: string, ok: bool): Option<Bytes>
    requires AtVolume(s)
  {
    var v := s.loop.todo[0];
    if ok && v in s.store && name in s.store[v].files then Some(s.store[v].files[name]) else None
  }

  /** The visit goes on with the same volume. */
  function Continue(s: State, at: Visit): State
    requires s.loop.Visiting?
  {
    s.(loop := Visiting(s.loop.todo, at))
  }

  /** The volume is done. */
  function Next(s: State): State
    requires AtVolume(s)
  {
    s.(loop := Visiting(s.loop.todo[1..], Begin))
  }

  /** WriteFiles on the volume at hand. */
  function Write(cfg: Config, s: State, ok: bool): State
    requires AtVolume(s) && s.loop.at.Put?
  {
    var v, at := s.loop.todo[0], s.loop.at;
    if !ok || v !in s.store then FailPass(s)
    else Next(s).(store := s.store[v := s.store[v].(files := FileSet(cfg.manager, at.cert, at.key, at.ca))])
  }

  /**
   One call of the loop's body. A failed call ends the pass, except that a CA file that cannot be read is
   written anew. Only the last call writes, and no call touches the signals of other goroutines.
   */
  function ApplyVisit(cfg: Config, s: State, ok: bool): (t: State)
    requires AtVolume(s)
    ensures t.store.Keys == s.store.Keys
    ensures !(s.loop.at.Put? && ok) ==> t.store == s.store
    ensures t == s.(loop := t.loop, sleeping := t.sleeping, store := t.store)
    ensures (t.loop.Visiting? && t.sleeping == s.sleeping) || t == FailPass(s)
  {
    match s.loop.at
    case Begin => if ok && s.loop.todo[0] in s.store then Continue(s, Located) else FailPass(s)
    case Located => (
      match FileRead(s, cfg.manager.cert, ok)
      case None => FailPass(s)
      case Some(cert) => Continue(s, CertRead(cert)))
    case CertRead(cert) => (
      match FileRead(s, cfg.manager.key, ok)
      case None => FailPass(s)
      case Some(key) => Continue(s, PairRead(cert, key)))
    case PairRead(cert, key) => (
      match FileRead(s, cfg.manager.ca, ok)
      case None => Continue(s, Rewrite(cert, key))
      case Some(ca) => Continue(s, CaRead(cert, key, ca)))
    case CaRead(cert, key, ca) => if ca == s.bundle then Next(s) else Continue(s, Rewrite(cert, key))
    case Rewrite(cert, key) => Continue(s, Put(cert, key, s.bundle))
    case Put(_, _, _) => Write(cfg, s, ok)
  }

  /** Without a readable leaf the keypair write ends before it touches anything; without PEM, the process ends. */
  function ApplyWriterFetch(cfg: Config, s: State, v: VolumeId, pair: Keypair): State {
    match NextIssuance(cfg.decode(pair.chain))
    case At(t) => s.(writers := s.writers[v := Fetched(pair, s.bundle, t)])
    case ParseError => s
    case NilBlock => s.(crashed := true)
  }

  function ApplyWriterStore(cfg: Config, s: State, v: VolumeId, ok: bool): State
    requires v in s.writers && s.writers[v].Fetched?
  {
    if !ok || v !in s.store then s.(writers := s.writers - {v})
    else
      var w := s.writers[v];
      var files := FileSet(cfg.driver, w.pair.chain, w.pair.key, w.ca);
      s.(store := s.store[v := s.store[v].(files := files)], writers := s.writers[v := Stored(w.next)])
  }

  function ApplyWriterMeta(s: State, v: VolumeId, ok: bool): State
    requires v in s.writers && s.writers[v].Stored?
  {
    if !ok || v !in s.store then s.(writers := s.writers - {v})
    else s.(store := s.store[v := s.store[v].(next := Some(s.writers[v].next))], writers := s.writers - {v})
  }

  function Apply(cfg: Config, s: State, a: Action): State
    requires Enabled(s, a)
  {
    match a
    case Subscribe => s.(loop := Idle)
    case Reload(read) => ApplyReload(s, read)
    case Publish(data) => ApplyPublish(s, data)
    case TakeEvent => s.(sends := s.sends - 1, loop := Holding)
    case SendToken => ApplySendToken(s)
    case TakeToken => s.(token := s.token - 1, loop := Listing)
    case List(ids, ok) => if ok then s.(loop := Visiting(ids, Begin)) else FailPass(s)
    case Visit(ok) => ApplyVisit(cfg, s, ok)
    case Finish => s.(loop := Idle)
    case RetryWakes => s.(sleeping := s.sleeping - 1, posting := s.posting + 1)
    case RetryPosts => s.(posting := s.posting - 1, token := s.token + 1)
    case RetryQuits => s.(sleeping := s.sleeping - 1)
    case Cancel => s.(cancelled := true)
    case Exit => s.(loop := Exited)
    case Register(v) => s.(store := s.store[v := Volume(map[], None)])
    case Remove(v) => s.(store := s.store - {v})
    case WriterFetch(v, pair) => ApplyWriterFetch(cfg, s, v, pair)
    case WriterStore(v, ok) => ApplyWriterStore(cfg, s, v, ok)
    case WriterMeta(v, ok) => ApplyWriterMeta(s, v, ok)
  }

  /** A step of the bundle's provider. */
  predicate FromProvider(a: Action) {
    a.Reload? || a.Publish?
  }

  /** The step broadcasts to the subscribers. */
  predicate Broadcasts(s: State, a: Action) {
    (a.Reload? && a.read.Some? && a.read.value != s.bundle) || a.Publish?
  }

  /** The step ends a pass in error. */
  predicate Fails(cfg: Config, s: State, a: Action)
    requires Enabled(s, a)
  {
    (a.List? || a.Visit?) && Apply(cfg, s, a).loop.Idle?
  }

  /** The pass writes the volume. */
  predicate Commits(s: State, a: Action, v: VolumeId) {
    a.Visit? && a.ok && AtVolume(s) && s.loop.at.Put? && s.loop.todo[0] == v
  }

  // ---------- Runs ----------

  /** The process start: no goroutine yet; the store may hold volumes of an earlier process. */
  predicate Init(s: State) {
    && !s.cancelled && !s.crashed && s.loop.NotStarted?
    && s.sends == 0 && s.token == 0 && s.sleeping == 0 && s.posting == 0
    && s.writers == map[]
  }

  /** Every action is enabled where it is taken. */
  predicate Runs(cfg: Config, s: State, actions: seq<Action>)
    decreases |actions|
  {
    actions == [] || (Enabled(s, actions[0]) && Runs(cfg, Apply(cfg, s, actions[0]), actions[1..]))
  }

  function After(cfg: Config, s: State, actions: seq<Action>): State
    requires Runs(cfg, s, actions)
    decreases |actions|
  {
    if actions == [] then s else After(cfg, Apply(cfg, s, actions[0]), actions[1..])
  }

  lemma {:induction false} RunsConcat(cfg: Config, s: State, first: seq<Action>, second: seq<Action>)
    requires Runs(cfg, s, first) && Runs(cfg, After(cfg, s, first), second)
    ensures Runs(cfg, s, first + second)
    ensures After(cfg, s, first + second) == After(cfg, After(cfg, s, first), second)
    decreases |first|
  {
    hide Apply, Enabled;
    if first == [] {
      assert first + second == second;
    } else {
      assert (first + second)[1..] == first[1..] + second;
      RunsConcat(cfg, Apply(cfg, s, first[0]), first[1..], second);
    }
  }

  /** A run of one action. */
  lemma RunsOne(cfg: Config, s: State, a: Action)
    requires Enabled(s, a)
    ensures Runs(cfg, s, [a]) && After(cfg, s, [a]) == Apply(cfg, s, a)
  {
    hide Apply, Enabled;
    assert [a][1..] == [];
  }

  /** Some run leads from one state to the other. */
  ghost predicate Reachable(cfg: Config, s: State, t: State) {
    exists actions :: Runs(cfg, s, actions) && After(cfg, s, actions) == t
  }

  lemma ReachSelf(cfg: Config, s: State)
    ensures Reachable(cfg, s, s)
  {
    assert Runs(cfg, s, []) && After(cfg, s, []) == s;
  }

  lemma ReachStep(cfg: Config, s: State, t: State, a: Action)
    requires Reachable(cfg, s, t) && Enabled(t, a)
    ensures Reachable(cfg, s, Apply(cfg, t, a))
  {
    hide Apply, Enabled;
    var actions :| Runs(cfg, s, actions) && After(cfg, s, actions) == t;
    RunsOne(cfg, t, a);
    RunsConcat(cfg, s, actions, [a]);
  }

  lemma ReachTrans(cfg: Config, s: State, t: State, u: State)
    requires Reachable(cfg, s, t) && Reachable(cfg, t, u)
    ensures Reachable(cfg, s, u)
  {
    hide Runs, After;
    var first :| Runs(cfg, s, first) && After(cfg, s, first) == t;
    var second :| Runs(cfg, t, second) && After(cfg, t, second) == u;
    RunsConcat(cfg, s, first, second);
  }

  // ---------- Well-formed states ----------

  predicate InPass(loop: Loop) {
    loop.Listing? || loop.Visiting?
  }

  /**
   One slot in the channel, taken while the loop is blocked; nothing outstanding before the subscription;
   and a bundle about to be written is the current one unless an event for its successor is still waiting.
   */
  predicate WellFormed(s: State) {
    && s.token <= 1
    && (s.loop.NotStarted? ==> s.sends == 0 && s.token == 0 && s.sleeping == 0 && s.posting == 0)
    && (s.loop.Visiting? && !s.loop.at.Begin? ==> s.loop.todo != [])
    && (s.loop.Visiting? && s.loop.at.Put? ==> s.loop.at.ca == s.bundle || s.sends > 0)
    && (s.loop.Blocked? ==> s.token == 1)
    && (s.loop.Exited? ==> s.cancelled)
  }

  lemma VisitWellFormed(cfg: Config, s: State, ok: bool)
    requires WellFormed(s) && AtVolume(s)
    ensures WellFormed(ApplyVisit(cfg, s, ok))
  {
    hide FileSet;
  }

  lemma StepWellFormed(cfg: Config, s: State, a: Action)
    requires WellFormed(s) && Enabled(s, a)
    ensures WellFormed(Apply(cfg, s, a))
  {
    hide ApplyVisit, FileSet;
    if a.Visit? { VisitWellFormed(cfg, s, a.ok); }
  }

  lemma {:induction false} RunWellFormed(cfg: Config, s: State, actions: seq<Action>)
    requires WellFormed(s) && Runs(cfg, s, actions)
    ensures WellFormed(After(cfg, s, actions))
    decreases |actions|
  {
    hide Apply, Enabled, WellFormed;
    if actions != [] {
      StepWellFormed(cfg, s, actions[0]);
      RunWellFormed(cfg, Apply(cfg, s, actions[0]), actions[1..]);
    }
  }
}
