/** The driver's write of an issued keypair to its volume. */
module KeypairWrite {
  import opened Base
  import opened Volumes
  import opened Renewal
  import opened Rotation

  datatype WriteResult = Written | KeyNotMarshalled | NoRenewalTime | Panicked | FilesNotWritten | MetadataNotWritten

  /** The files written: the CA file only if root CAs are configured. */
  function Data(names: Names, pair: Keypair, rootCas: Option<Bytes>): (files: map<string, Bytes>)
    ensures files.Keys == {names.cert, names.key} + if rootCas.Some? then {names.ca} else {}
    ensures rootCas.Some? ==> files[names.ca] == rootCas.value
    ensures rootCas.None? || names.ca != names.key ==> files[names.key] == pair.key
    ensures names.cert != names.key && (rootCas.None? || names.ca != names.cert) ==> files[names.cert] == pair.chain
  {
    match rootCas
    case None => map[][names.cert := pair.chain][names.key := pair.key]
    case Some(ca) => FileSet(names, pair.chain, pair.key, ca)
  }

  class Store {
    var volumes: map<VolumeId, Volume>

    /**
     writeKeypair. The key's PEM form is None if marshalling fails; `filesFail` and `metadataFail` say
     whether the two storage calls fail. A volume that is gone fails both.
     */
    method WriteKeypair(names: Names, decode: Bytes -> Decoded, rootCas: Option<Bytes>, v: VolumeId, chain: Bytes,
                        keyPem: Option<Bytes>, filesFail: bool, metadataFail: bool) returns (r: WriteResult)
      modifies this
      ensures r.KeyNotMarshalled? <==> keyPem.None?
      ensures keyPem.Some? ==> (r.NoRenewalTime? <==> NextIssuance(decode(chain)).ParseError?)
      ensures keyPem.Some? ==> (r.Panicked? <==> NextIssuance(decode(chain)).NilBlock?)
      ensures r.Written? || r.FilesNotWritten? || r.MetadataNotWritten? ==>
                keyPem.Some? && NextIssuance(decode(chain)).At?
      ensures r.FilesNotWritten? ==> filesFail || v !in old(volumes)
      ensures r.MetadataNotWritten? ==> metadataFail && !filesFail && v in old(volumes)
      ensures r.Written? ==> !metadataFail && !filesFail && v in old(volumes)
      ensures r.Written? ==>
                var files := Data(names, Keypair(chain, keyPem.value), rootCas);
                volumes == old(volumes)[v := Volume(files, Some(NextIssuance(decode(chain)).time))]
      ensures r.MetadataNotWritten? ==>
                var files := Data(names, Keypair(chain, keyPem.value), rootCas);
                volumes == old(volumes)[v := old(volumes)[v].(files := files)]
      ensures !r.Written? && !r.MetadataNotWritten? ==> volumes == old(volumes)
    {
      hide FileSet, RenewAt;
      if keyPem.None? {
        return KeyNotMarshalled;
      }
      var issuance := NextIssuance(decode(chain));
      if issuance.NilBlock? {
        return Panicked;
      }
      if issuance.ParseError? {
        return NoRenewalTime;
      }
      var data := map[][names.cert := chain][names.key := keyPem.value];
      if rootCas.Some? {
        DataWithCa(names, Keypair(chain, keyPem.value), rootCas.value);
        data := data[names.ca := rootCas.value];
      }
      assert data == Data(names, Keypair(chain, keyPem.value), rootCas);
      if filesFail || v !in volumes {
        return FilesNotWritten;
      }
      volumes := volumes[v := volumes[v].(files := data)];
      if metadataFail {
        return MetadataNotWritten;
      }
      volumes := volumes[v := volumes[v].(next := Some(issuance.time))];
      return Written;
    }
  }

  lemma DataWithCa(names: Names, pair: Keypair, ca: Bytes)
    ensures map[][names.cert := pair.chain][names.key := pair.key][names.ca := ca]
         == FileSet(names, pair.chain, pair.key, ca)
  {
  }

  /** The three steps of the protocol, uninterrupted, are the write with root CAs configured. */
  lemma ProtocolWrite(cfg: Config, s: State, v: VolumeId, pair: Keypair)
    requires !s.crashed && v in s.store && v !in s.writers && NextIssuance(cfg.decode(pair.chain)).At?
    ensures Reachable(cfg, s, s.(store := s.store[v :=
              Volume(Data(cfg.driver, pair, Some(s.bundle)), Some(NextIssuance(cfg.decode(pair.chain)).time))]))
  {
    hide Runs, After, FileSet, Reachable, RenewAt;
    var t := NextIssuance(cfg.decode(pair.chain)).time;
    ReachSelf(cfg, s);
    ReachStep(cfg, s, s, WriterFetch(v, pair));
    var fetched := s.(writers := s.writers[v := Fetched(pair, s.bundle, t)]);
    assert fetched.writers - {v} == s.writers;
    ProtocolStore(cfg, s, fetched, v);
  }

  /** From the bundle read to the metadata write. */
  lemma ProtocolStore(cfg: Config, s0: State, s: State, v: VolumeId)
    requires Reachable(cfg, s0, s) && !s.crashed && v in s.store && v in s.writers && s.writers[v].Fetched?
    ensures var w := s.writers[v];
      var files := FileSet(cfg.driver, w.pair.chain, w.pair.key, w.ca);
      Reachable(cfg, s0, s.(store := s.store[v := Volume(files, Some(w.next))], writers := s.writers - {v}))
  {
    hide Runs, After, FileSet, Reachable;
    var w := s.writers[v];
    ReachStep(cfg, s0, s, WriterStore(v, true));
    var t := Apply(cfg, s, WriterStore(v, true));
    ReachStep(cfg, s0, t, WriterMeta(v, true));
    var files := FileSet(cfg.driver, w.pair.chain, w.pair.key, w.ca);
    assert t.store == s.store[v := Volume(files, s.store[v].next)];
    assert t.store[v := Volume(files, Some(w.next))] == s.store[v := Volume(files, Some(w.next))];
    assert t.writers - {v} == s.writers - {v};
  }
}
