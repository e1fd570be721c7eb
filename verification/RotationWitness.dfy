/** Schedules on which a rotation is lost, a renewal is lost, and a keypair is torn apart. */
module RotationWitness {
  import opened Base
  import opened Volumes
  import opened Renewal
  import opened Rotation
  import opened RotationSafety
  import opened RotationKeypairs
  import opened KeypairWrite
  import opened CaManager

  /** A fresh process with bundle b and one registered volume. */
  function Start(v: VolumeId, b: Bytes): State {
    State(b, false, false, 0, 0, 0, 0, NotStarted, map[v := Volume(map[], None)], map[])
  }

  /** One volume with a keypair, a CA file and a renewal time, and the loop waiting. */
  function Waiting(cfg: Config, v: VolumeId, b: Bytes, p: Keypair, t: int): State {
    var vol := Volume(FileSet(cfg.driver, p.chain, p.key, b), Some(t));
    State(b, false, false, 0, 0, 0, 0, Idle, map[v := vol], map[])
  }

  /** The first keypair write, then the subscription. */
  lemma FirstWrite(cfg: Config, v: VolumeId, b: Bytes, p: Keypair, t: int)
    requires NextIssuance(cfg.decode(p.chain)) == At(t)
    ensures Init(Start(v, b)) && Reachable(cfg, Start(v, b), Waiting(cfg, v, b, p, t))
  {
    hide Runs, After, FileSet, Reachable;
    var s0 := Start(v, b);
    ReachSelf(cfg, s0);
    ProtocolWrite(cfg, s0, v, p);
    var vol := Volume(FileSet(cfg.driver, p.chain, p.key, b), Some(t));
    assert s0.store[v := vol] == map[v := vol];
    ReachStep(cfg, s0, s0.(store := map[v := vol]), Subscribe);
  }

  /** The bundle changes; the event is delivered, becomes a token and starts a pass over the one volume. */
  lemma PassStarts(cfg: Config, s0: State, s: State, v: VolumeId, c: Bytes)
    requires Reachable(cfg, s0, s) && !s.crashed && s.loop.Idle? && s.sends == 0 && s.token == 0
    requires s.store.Keys == {v} && c != s.bundle
    ensures Reachable(cfg, s0, s.(bundle := c, loop := Visiting([v], Begin)))
  {
    hide Runs, After, Reachable, ApplyVisit;
    ReachStep(cfg, s0, s, Reload(Some(c)));
    var s1 := s.(bundle := c, sends := 1);
    ReachStep(cfg, s0, s1, TakeEvent);
    ReachStep(cfg, s0, s.(bundle := c, loop := Holding), SendToken);
    var s2 := s.(bundle := c, token := 1);
    ReachStep(cfg, s0, s2, TakeToken);
    var s3 := s.(bundle := c, loop := Listing);
    assert v in s3.store && Enumerates([v], s3.store);
    ReachStep(cfg, s0, s3, List([v], true));
  }

  /** The pass finds the volume's metadata and reads its certificate. */
  lemma ReadsCert(cfg: Config, s0: State, s: State, v: VolumeId, cert: Bytes)
    requires Reachable(cfg, s0, s) && !s.crashed && s.loop == Visiting([v], Begin)
    requires v in s.store && HasFile(s.store[v], cfg.manager.cert, cert)
    ensures Reachable(cfg, s0, Continue(s, CertRead(cert)))
  {
    hide Reachable;
    ReachVisit(cfg, s0, s, true);
    ReachVisit(cfg, s0, Continue(s, Located), true);
  }

  /** The pass goes on to read the key and the CA file, and finds the latter out of date. */
  lemma FindsOutOfDate(cfg: Config, s0: State, s: State, v: VolumeId, cert: Bytes, key: Bytes, ca: Bytes)
    requires Reachable(cfg, s0, s) && !s.crashed && s.loop == Visiting([v], CertRead(cert))
    requires v in s.store && HasFile(s.store[v], cfg.manager.key, key) && HasFile(s.store[v], cfg.manager.ca, ca)
    requires ca != s.bundle
    ensures Reachable(cfg, s0, Continue(s, Rewrite(cert, key)))
  {
    hide Reachable;
    ReachVisit(cfg, s0, s, true);
    ReachVisit(cfg, s0, Continue(s, PairRead(cert, key)), true);
    ReachVisit(cfg, s0, Continue(s, CaRead(cert, key, ca)), true);
  }

  /** The pass writes the volume it has read, and completes. */
  lemma PassCompletes(cfg: Config, s0: State, s: State, v: VolumeId, cert: Bytes, key: Bytes)
    requires Reachable(cfg, s0, s) && !s.crashed && s.loop == Visiting([v], Rewrite(cert, key)) && v in s.store
    ensures var vol := s.store[v].(files := FileSet(cfg.manager, cert, key, s.bundle));
      Reachable(cfg, s0, s.(loop := Idle, store := s.store[v := vol]))
  {
    hide Runs, After, FileSet, Reachable, ApplyVisit;
    ProtocolRewrite(cfg, s0, s, call => false);
    var vol := s.store[v].(files := FileSet(cfg.manager, cert, key, s.bundle));
    assert [v][1..] == [];
    ReachStep(cfg, s0, s.(loop := Visiting([], Begin), store := s.store[v := vol]), Finish);
  }

  /**
   Lost rotation: a renewal reads bundle b, the bundle changes to c, the pass brings the volume up to
   date and finishes, and then the renewal stores b. Nothing is outstanding, and the volume is stale.
   */
  lemma RotationCanBeLost(cfg: Config, v: VolumeId, b: Bytes, c: Bytes, p: Keypair, t: int)
    requires NextIssuance(cfg.decode(p.chain)) == At(t) && b != c
    requires SameKeypairNames(cfg) && cfg.driver.ca == cfg.manager.ca
    ensures exists end :: Reachable(cfg, Start(v, b), end) && !end.cancelled && end.bundle == c
                          && Quiescent(end) && Stale(cfg, end, v)
  {
    hide Runs, After, Reachable, ApplyVisit, RenewAt;
    FirstWrite(cfg, v, b, p, t);
    var s0, idle := Start(v, b), Waiting(cfg, v, b, p, t);
    ReachStep(cfg, s0, idle, WriterFetch(v, p));
    var s1 := idle.(writers := map[v := Fetched(p, b, t)]);
    assert Apply(cfg, idle, WriterFetch(v, p)) == s1;
    PassStarts(cfg, s0, s1, v, c);
    var s2 := s1.(bundle := c, loop := Visiting([v], Begin));
    ReadsCert(cfg, s0, s2, v, p.chain);
    FindsOutOfDate(cfg, s0, Continue(s2, CertRead(p.chain)), v, p.chain, p.key, b);
    PassCompletes(cfg, s0, Continue(s2, Rewrite(p.chain, p.key)), v, p.chain, p.key);
    var vol := s2.store[v].(files := FileSet(cfg.manager, p.chain, p.key, c));
    var s3 := s2.(loop := Idle, store := s2.store[v := vol]);
    ReachStep(cfg, s0, s3, WriterStore(v, true));
    var end := Apply(cfg, s3, WriterStore(v, true));
    assert Quiescent(end) && end.store[v].files == FileSet(cfg.driver, p.chain, p.key, b);
    assert Stale(cfg, end, v);
  }

  /**
   Lost renewal: the pass reads keypair p, a complete keypair write replaces it by q, and the pass writes
   p back. The volume holds the old certificate under the new renewal time.
   */
  lemma RenewalCanBeLost(cfg: Config, v: VolumeId, b: Bytes, c: Bytes, p: Keypair, t: int, q: Keypair, u: int)
    requires NextIssuance(cfg.decode(p.chain)) == At(t) && NextIssuance(cfg.decode(q.chain)) == At(u)
    requires b != c && t != u
    requires SameKeypairNames(cfg) && cfg.driver.ca == cfg.manager.ca
    ensures exists end :: Reachable(cfg, Start(v, b), end) && !end.cancelled && Quiescent(end)
                          && HoldsPair(cfg, end, v, p) && end.store[v].next == Some(u) && !RenewalFollows(cfg, end, v)
  {
    hide Runs, After, Reachable, ApplyVisit, RenewAt;
    FirstWrite(cfg, v, b, p, t);
    var s0, idle := Start(v, b), Waiting(cfg, v, b, p, t);
    PassStarts(cfg, s0, idle, v, c);
    var s1 := idle.(bundle := c, loop := Visiting([v], Begin));
    ReadsCert(cfg, s0, s1, v, p.chain);
    FindsOutOfDate(cfg, s0, Continue(s1, CertRead(p.chain)), v, p.chain, p.key, b);
    var s2 := Continue(s1, Rewrite(p.chain, p.key));
    ProtocolWrite(cfg, s2, v, q);
    var s3 := s2.(store := s2.store[v := Volume(FileSet(cfg.driver, q.chain, q.key, c), Some(u))]);
    ReachTrans(cfg, s0, s2, s3);
    PassCompletes(cfg, s0, s3, v, p.chain, p.key);
    var files := FileSet(cfg.manager, p.chain, p.key, c);
    var end := s3.(loop := Idle, store := s3.store[v := Volume(files, Some(u))]);
    assert HoldsPair(cfg, end, v, p) && Quiescent(end);
  }

  /**
   Torn keypair: the pass reads the certificate of p, a keypair write of q lands before the pass reads the
   key, and the pass writes back the old certificate with the new key, under the new renewal time. The
   write stored its files before the pass had decided to rewrite anything.
   */
  lemma PairCanTear(cfg: Config, v: VolumeId, b: Bytes, c: Bytes, p: Keypair, t: int, q: Keypair, u: int)
    requires NextIssuance(cfg.decode(p.chain)) == At(t) && NextIssuance(cfg.decode(q.chain)) == At(u)
    requires b != c && t != u
    requires SameKeypairNames(cfg) && cfg.driver.ca == cfg.manager.ca
    ensures exists end :: Reachable(cfg, Start(v, b), end) && !end.cancelled && Quiescent(end) && AllCurrent(cfg, end)
                          && HoldsPair(cfg, end, v, Keypair(p.chain, q.key))
                          && end.store[v].next == Some(u) && !RenewalFollows(cfg, end, v)
  {
    hide Runs, After, Reachable, ApplyVisit, RenewAt;
    FirstWrite(cfg, v, b, p, t);
    var s0, idle := Start(v, b), Waiting(cfg, v, b, p, t);
    ReachStep(cfg, s0, idle, WriterFetch(v, q));
    var s1 := idle.(writers := map[v := Fetched(q, b, u)]);
    assert Apply(cfg, idle, WriterFetch(v, q)) == s1;
    PassStarts(cfg, s0, s1, v, c);
    var s2 := s1.(bundle := c, loop := Visiting([v], Begin));
    ReadsCert(cfg, s0, s2, v, p.chain);
    var s3 := Continue(s2, CertRead(p.chain));
    ProtocolStore(cfg, s0, s3, v);
    var vol := Volume(FileSet(cfg.driver, q.chain, q.key, b), Some(u));
    var s4 := s3.(store := s3.store[v := vol], writers := s3.writers - {v});
    FindsOutOfDate(cfg, s0, s4, v, p.chain, q.key, b);
    PassCompletes(cfg, s0, Continue(s4, Rewrite(p.chain, q.key)), v, p.chain, q.key);
    var end := s4.(loop := Idle, store := s4.store[v := vol.(files := FileSet(cfg.manager, p.chain, q.key, c))]);
    assert HoldsPair(cfg, end, v, Keypair(p.chain, q.key)) && Quiescent(end) && AllCurrent(cfg, end);
  }
}
