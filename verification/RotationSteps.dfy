/** What each step of the protocol can change, volume by volume, stated without the steps' own functions. */
module RotationSteps {
  import opened Base
  import opened Volumes
  import opened Renewal
  import opened Rotation

  /** A keypair write stores its files on the volume. */
  predicate Stores(s: State, a: Action, v: VolumeId) {
    a == WriterStore(v, true) && v in s.writers && s.writers[v].Fetched?
  }

  /** Volumes come and go by registration and removal only, and a new one is empty. */
  lemma StepVolumes(cfg: Config, s: State, a: Action, v: VolumeId)
    requires Enabled(s, a)
    ensures var t := Apply(cfg, s, a);
      && (v in t.store <==> (v in s.store && a != Remove(v)) || a == Register(v))
      && (a == Register(v) ==> t.store[v].files == map[] && t.store[v].next == None)
  {
    hide ApplyVisit, FileSet;
    assert forall w :: w in s.store <==> w in s.store.Keys;
    if a.Visit? { assert ApplyVisit(cfg, s, a.ok).store.Keys == s.store.Keys; }
  }

  /** Files change only when a pass or a keypair write writes the volume; the renewal time only with the metadata. */
  lemma StepFrame(cfg: Config, s: State, a: Action, v: VolumeId)
    requires Enabled(s, a) && v in s.store && v in Apply(cfg, s, a).store
    ensures var t := Apply(cfg, s, a);
      && (!Commits(s, a, v) && !Stores(s, a, v) ==> t.store[v].files == s.store[v].files)
      && (a != WriterMeta(v, true) ==> t.store[v].next == s.store[v].next)
      && (a == WriterMeta(v, true) ==> t.store[v].next == Some(s.writers[v].next))
  {
    hide FileSet;
  }

  /** The files are exactly these three; of equal names the CA file wins, then the key. */
  predicate Holds(vol: Volume, names: Names, cert: Bytes, key: Bytes, ca: Bytes) {
    && vol.files.Keys == {names.cert, names.key, names.ca}
    && vol.files[names.ca] == ca
    && (names.key != names.ca ==> vol.files[names.key] == key)
    && (names.cert != names.ca && names.cert != names.key ==> vol.files[names.cert] == cert)
  }

  /** What is written: the pass puts back what it read beside the bundle, the keypair write its own pair. */
  lemma StepWrites(cfg: Config, s: State, a: Action, v: VolumeId)
    requires Enabled(s, a) && v in s.store
    ensures var t := Apply(cfg, s, a);
      && (Commits(s, a, v) ==>
            v in t.store && Holds(t.store[v], cfg.manager, s.loop.at.cert, s.loop.at.key, s.loop.at.ca))
      && (Stores(s, a, v) ==>
            var w := s.writers[v]; v in t.store && Holds(t.store[v], cfg.driver, w.pair.chain, w.pair.key, w.ca))
  {
  }

  /** A keypair write starts with the current bundle, goes on if its files are stored, and ends with its metadata. */
  lemma StepWriters(cfg: Config, s: State, a: Action, v: VolumeId)
    requires Enabled(s, a)
    ensures var t := Apply(cfg, s, a);
      && (a.WriterFetch? && a.v == v && v in t.writers ==>
            t.writers[v].Fetched? && t.writers[v].pair == a.pair && t.writers[v].ca == s.bundle
            && NextIssuance(cfg.decode(a.pair.chain)) == At(t.writers[v].next))
      && (a.WriterStore? && a.v == v ==>
            (v in t.writers <==> a.ok && v in s.store)
            && (v in t.writers ==> t.writers[v] == Stored(s.writers[v].next)))
      && (a.WriterMeta? && a.v == v ==> v !in t.writers)
      && (!((a.WriterFetch? || a.WriterStore? || a.WriterMeta?) && a.v == v) ==>
            (v in t.writers <==> v in s.writers) && (v in s.writers ==> t.writers[v] == s.writers[v]))
  {
    hide FileSet, ApplyVisit;
  }

  /** The calls that end a pass in error, and no others: each of them needs the volume, and the reads their file. */
  lemma VisitFailsExactly(cfg: Config, s: State, ok: bool)
    requires WellFormed(s) && Enabled(s, Visit(ok))
    ensures var v, at := s.loop.todo[0], s.loop.at;
      Fails(cfg, s, Visit(ok))
      <==> && (!ok || v !in s.store
               || (at.Located? && cfg.manager.cert !in s.store[v].files)
               || (at.CertRead? && cfg.manager.key !in s.store[v].files))
           && (at.Begin? || at.Located? || at.CertRead? || at.Put?)
  {
  }

  /** What a visit has just read is what the volume holds, and a bundle about to be written is the current one. */
  lemma VisitReads(cfg: Config, s: State, ok: bool)
    requires WellFormed(s) && Enabled(s, Visit(ok)) && !Fails(cfg, s, Visit(ok))
    ensures var v, at, next := s.loop.todo[0], s.loop.at, Apply(cfg, s, Visit(ok)).loop;
      && next.Visiting?
      && (at.Begin? ==> next.todo == s.loop.todo && next.at.Located?)
      && (at.Located? ==> next.todo == s.loop.todo && next.at.CertRead?
                          && HasFile(s.store[v], cfg.manager.cert, next.at.cert))
      && (at.CertRead? ==> next.todo == s.loop.todo && next.at.PairRead? && next.at.cert == at.cert
                           && HasFile(s.store[v], cfg.manager.key, next.at.key))
      && (at.PairRead? && next.at.CaRead? ==> v in s.store && HasFile(s.store[v], cfg.manager.ca, next.at.ca))
      && (at.PairRead? ==> (next.at.CaRead? <==> ok && v in s.store && cfg.manager.ca in s.store[v].files)
                           && (next.at.CaRead? || next.at.Rewrite?)
                           && next.at.cert == at.cert && next.at.key == at.key)
      && (at.CaRead? && at.ca == s.bundle ==> next.todo == s.loop.todo[1..] && next.at.Begin?)
      && (at.CaRead? && at.ca != s.bundle ==> next.at == Rewrite(at.cert, at.key))
      && (at.Rewrite? ==> next.at == Put(at.cert, at.key, s.bundle))
      && (at.Put? ==> next.todo == s.loop.todo[1..] && next.at.Begin?)
  {
    hide FileSet;
  }

  /** Cancellation is one step and final; the loop returns only from its select, after it. */
  lemma StepCancels(cfg: Config, s: State, a: Action)
    requires WellFormed(s) && Enabled(s, a)
    ensures var t := Apply(cfg, s, a);
      && (t.cancelled <==> s.cancelled || a.Cancel?)
      && (t.loop.Exited? <==> s.loop.Exited? || a.Exit?)
      && (t.crashed <==> a.WriterFetch? && cfg.decode(a.pair.chain).NoPem?)
  {
    hide ApplyVisit, FileSet;
  }
}
