/** The driver's requests meet the approver's rules, and the driver's files meet the manager's. */
module Agreement {
  import opened Base
  import opened X509
  import opened SubjectAltName
  import opened Identity
  import opened Evaluator
  import opened RuntimeConfig
  import opened Volumes
  import opened Driver
  import opened Renewal
  import CaManager
  import Rotation
  import RotationKeypairs

  // ---------- Names a URI carries without escaping ----------

  predicate Unreserved(c: char) {
    Alphanumeric(c) || c == '-' || c == '.' || c == '_' || c == '~'
  }

  predicate PlainText(s: string) {
    forall i :: 0 <= i < |s| ==> Unreserved(s[i])
  }

  /** Plain text and the delimiters of an ID. */
  predicate IdText(s: string) {
    forall i :: 0 <= i < |s| ==> Unreserved(s[i]) || s[i] == ':' || s[i] == '/'
  }

  lemma PlainFacts(s: string)
    requires PlainText(s)
    ensures IdText(s) && ':' !in s && '/' !in s
  {
  }

  lemma IdTextConcat(s: string, t: string)
    ensures IdText(s + t) <==> IdText(s) && IdText(t)
  {
    assert forall i :: 0 <= i < |s| ==> (s + t)[i] == s[i];
    assert forall i :: 0 <= i < |t| ==> (s + t)[|s| + i] == t[i];
  }

  /** An ID of plain names needs no escaping. */
  lemma PlainId(trustDomain: string, namespace: string, account: string)
    requires PlainText(trustDomain) && PlainText(namespace) && PlainText(account)
    ensures IdText(SpiffeId(trustDomain, namespace, account))
  {
    PlainFacts(trustDomain);
    PlainFacts(namespace);
    PlainFacts(account);
    hide IdText;
    assert IdText("spiffe://") by { DelimitersAreIdText(); }
    PlainPath(namespace, account);
    IdTextConcat("spiffe://", trustDomain);
    IdTextConcat("spiffe://" + trustDomain, SpiffePath(namespace, account));
  }

  lemma PlainPath(namespace: string, account: string)
    requires PlainText(namespace) && PlainText(account)
    ensures IdText(SpiffePath(namespace, account))
  {
    PlainFacts(namespace);
    PlainFacts(account);
    hide IdText;
    assert IdText("/ns/") && IdText("/sa/") by { DelimitersAreIdText(); }
    IdTextConcat("/ns/", namespace);
    IdTextConcat("/ns/" + namespace, "/sa/");
    IdTextConcat("/ns/" + namespace + "/sa/", account);
  }

  lemma DelimitersAreIdText()
    ensures IdText("spiffe://") && IdText("/ns/") && IdText("/sa/")
  {
  }

  lemma IdTextIsPathText(s: string)
    requires IdText(s)
    ensures IsIA5(s) && PathText(s) && Without(s, "?#")
  {
  }

  lemma PlainIsHost(s: string)
    requires PlainText(s)
    ensures HostText(s) && Without(s, "/?#") && Without(s, "?#")
  {
  }

  /** An ID of plain names parses, and its host is the trust domain. */
  lemma PlainIdParses(trustDomain: string, namespace: string, account: string)
    requires PlainText(trustDomain) && PlainText(namespace) && PlainText(account)
    ensures ParseUri(SpiffeId(trustDomain, namespace, account))
         == Some(Uri("spiffe", trustDomain, SpiffePath(namespace, account), ""))
  {
    hide Until, HostText, PathText, Without, PlainText, IdText;
    PlainIsHost(trustDomain);
    PlainIsHost(namespace);
    PlainIsHost(account);
    PlainPath(namespace, account);
    var path := SpiffePath(namespace, account);
    IdTextIsPathText(path);
    assert HostPart(trustDomain) == trustDomain && AfterHost(trustDomain, namespace, account) == path by {
      UncutExactly(trustDomain, "/?#");
      assert trustDomain[|trustDomain|..] == "";
    }
    UncutExactly(path, "?#");
    assert path[..|path|] == path && TailText(path[|path|..]) by { EmptyTail(path[|path|..]); }
    IdParsesExactly(trustDomain, namespace, account);
    ParseSpiffeId(trustDomain, namespace, account);
  }

  lemma EmptyTail(s: string)
    requires s == ""
    ensures TailText(s)
  {
  }

  lemma LengthOctetsBound(n: nat)
    requires n <= Der.MAX_INT32
    ensures |Der.PrintLength(n)| <= 5
  {
    hide Der.Digits;
    Der.LengthDigits(n);
  }

  /** One URI that leaves room for two headers of six octets can be encoded. */
  lemma OneUriEncodable(u: Uri)
    requires IsIA5(u.ToString()) && |u.ToString()| <= Der.MAX_INT32 - 6
    ensures Encodable(UriStrings([u]))
  {
    hide Der.PrintLength, IsIA5, ToBytes;
    var strings := UriStrings([u]);
    var name := UriName(u.ToString());
    assert strings == [u.ToString()] && UriNames(strings) == [name] && [name][1..] == [];
    LengthOctetsBound(|name.contents|);
    assert Der.PrintAll([name]) == Der.PrintElement(name) + Der.PrintAll([]) == Der.PrintElement(name);
  }

  // ---------- Request and approval ----------

  /** The CertificateRequest the API server stores: the bundle, the signed bytes and the creator's username. */
  function ToSpec(bundle: Bundle, csr: Option<Csr>, username: string): Spec {
    Spec(csr, Some(bundle.duration), bundle.isCA, bundle.usages, username)
  }

  /** The account's names and the trust domain need no escaping and the ID fits the encoding. */
  predicate ValidAccount(trustDomain: string, namespace: string, account: string) {
    && PlainText(trustDomain) && PlainText(namespace) && PlainText(account)
    && namespace != "" && account != ""
    && |SpiffeId(trustDomain, namespace, account)| <= Der.MAX_INT32 - 6
  }

  lemma AccountUri(trustDomain: string, namespace: string, account: string)
    requires ValidAccount(trustDomain, namespace, account)
    ensures var id := SpiffeId(trustDomain, namespace, account);
      && ParseUri(id).Some?
      && var u := ParseUri(id).value;
      && u.ToString() == id && u.scheme == "spiffe" && u.host == trustDomain
      && Canonical(u) && Encodable(UriStrings([u]))
  {
    hide SpiffeId, IsIA5, Encodable, UriStrings, IdText, ParseUri, PathText;
    var id := SpiffeId(trustDomain, namespace, account);
    PlainId(trustDomain, namespace, account);
    IdTextIsPathText(id);
    PlainIdParses(trustDomain, namespace, account);
    ParseUriPrints(id);
    OneUriEncodable(ParseUri(id).value);
  }

  /** The names of a valid account are recovered from its ID by one username only. */
  lemma AccountUsername(trustDomain: string, namespace: string, account: string, u: Uri, username: string)
    requires ValidAccount(trustDomain, namespace, account)
    requires u.scheme == "spiffe" && u.ToString() == SpiffeId(trustDomain, namespace, account)
    ensures (exists n, a :: Corresponds(trustDomain, [u], username, n, a)) <==> username == Username(namespace, account)
  {
    hide SpiffeId, Username, ValidateIdentity;
    PlainFacts(namespace);
    PlainFacts(account);
    if username == Username(namespace, account) {
      assert Corresponds(trustDomain, [u], username, namespace, account);
    }
    if n, a :| Corresponds(trustDomain, [u], username, n, a) {
      SlashlessSoleOwner(trustDomain, namespace, account);
      assert n == namespace && a == account;
    }
  }

  lemma SlashlessSoleOwner(trustDomain: string, namespace: string, account: string)
    requires ':' !in namespace && ':' !in account && '/' !in namespace && '/' !in account
    ensures SoleOwner(trustDomain, namespace, account)
  {
    hide SpiffeId;
    SlashlessOneSeparator(namespace, account);
    SoleOwnerExact(trustDomain, namespace, account);
  }

  /** The usages asked for are the usages required, in another order. */
  lemma UsagesMatch()
    ensures multiset([DigitalSignature, KeyEncipherment, ServerAuth, ClientAuth])
         == multiset{KeyEncipherment, DigitalSignature, ClientAuth, ServerAuth}
  {
  }

  /**
   End to end. For every valid account, every custom annotation map, active issuer and pair of configured
   durations, the request the driver generates and signs is approved exactly when the durations match
   once the driver has applied its default, the requester is the account itself (default mode) or the
   driver's account (own-account mode), and the trust domain has no empty label: with one, the signed
   request does not parse.
   */
  lemma DriverAndApproverAgree(opts: DriverOptions, eval: Options, config: Config,
                               namespace: string, account: string, username: string)
    requires ValidAccount(opts.trustDomain, namespace, account) && eval.trustDomain == opts.trustDomain
    ensures var kept := map k | k in opts.annotations && !Reserved(k) :: opts.annotations[k];
      && ParseUri(SpiffeId(opts.trustDomain, namespace, account)).Some?
      && var bundle := BundleFor(opts.trustDomain, kept, EffectiveDuration(opts.duration), config, namespace, account);
      && Encodable(UriStrings(bundle.uris))
      && (Evaluate(eval, ToSpec(bundle, Signed("", bundle.uris, []), username)).Pass?
          <==> && eval.duration == EffectiveDuration(opts.duration)
               && username == (if eval.useOwnServiceAccount then eval.driverServiceAccount
                               else Username(namespace, account))
               && ValidDomain(opts.trustDomain))
  {
    hide SpiffeId, Username, ParseUri, Encodable, UriStrings, Signed, Canonical, SanVerdict, Acceptable, Corresponds,
         ValidDomain, ValidateIdentity;
    var kept := map k | k in opts.annotations && !Reserved(k) :: opts.annotations[k];
    AccountUri(opts.trustDomain, namespace, account);
    var bundle := BundleFor(opts.trustDomain, kept, EffectiveDuration(opts.duration), config, namespace, account);
    var u := bundle.uris[0];
    assert bundle.uris == [u];
    assert Domains([u]) <==> ValidDomain(u.host) by { assert [u][0] == u; }
    SignedSan("", [u]);
    var csr := Signed("", [u], []);
    if ValidDomain(opts.trustDomain) {
      PlainRequestAcceptable(eval, u, csr.value.extensions[0], bundle.duration, username);
      AccountUsername(opts.trustDomain, namespace, account, u, username);
      assert ToSpec(bundle, csr, username) == PlainSpec(u, csr.value.extensions[0], bundle.duration, username);
    } else {
      UnparsedRefused(eval, bundle, username);
    }
  }

  lemma UnparsedRefused(eval: Options, bundle: Bundle, username: string)
    ensures Evaluate(eval, ToSpec(bundle, None, username)).Fail?
  {
  }

  /** A request with one URI, one extension and the driver's usages. */
  function PlainSpec(u: Uri, san: Extension, duration: int, username: string): Spec {
    Spec(Some(Csr("", [], [], [], [u], [san], [], true)), Some(duration), false,
         [DigitalSignature, KeyEncipherment, ServerAuth, ClientAuth], username)
  }

  /** Such a request stands or falls with its duration and identity. */
  lemma PlainRequestAcceptable(eval: Options, u: Uri, san: Extension, duration: int, username: string)
    requires san.id == OID_SUBJECT_ALT_NAME && SanVerdict(san) == Pass
    ensures Evaluate(eval, PlainSpec(u, san, duration, username)).Pass?
       <==> eval.duration == duration && IdentityHolds(eval, [u], username)
  {
    hide SanVerdict, Evaluate, AllowedExtension, IdentityHolds;
    EvaluateExact(eval, PlainSpec(u, san, duration, username));
    SanAllowed(san);
    UsagesMatch();
    assert forall ext :: ext in multiset([san]) ==> ext == san;
  }

  lemma SanAllowed(san: Extension)
    requires san.id == OID_SUBJECT_ALT_NAME && SanVerdict(san) == Pass
    ensures AllowedExtension(san)
  {
    hide SanVerdict, IsUriSequence;
    SanVerdictExact(san);
  }

  // ---------- Files ----------

  /** What the rotation results ask of the two sets of file names, in terms of the options. */
  lemma RotationConfiguration(opts: DriverOptions, decode: Bytes -> Decoded)
    ensures var cfg := Rotation.Config(DriverNames(opts), ManagerNames(opts), decode);
      && (cfg.driver.ca == cfg.manager.ca <==> opts.caFileName == "ca.crt")
      && (RotationKeypairs.SameKeypairNames(cfg) <==>
            && opts.certFileName != "" && opts.keyFileName != "" && opts.certFileName != opts.keyFileName
            && opts.caFileName != opts.certFileName && opts.caFileName != opts.keyFileName)
  {
  }

  /**
   A volume the driver has written is brought up to date under the name the pod reads exactly when the
   configured CA file name is the driver's fixed one; otherwise the pass removes the pod's CA file.
   */
  lemma RotationReachesPodExactly(opts: DriverOptions, v: VolumeId, pair: Keypair, earlier: Bytes, bundle: Bytes,
                                  next: Option<int>)
    requires opts.certFileName != "" && opts.keyFileName != "" && opts.certFileName != opts.keyFileName
    requires opts.certFileName != "ca.crt" && opts.keyFileName != "ca.crt"
    requires opts.caFileName != opts.certFileName && opts.caFileName != opts.keyFileName
    ensures var vol := Volume(FileSet(DriverNames(opts), pair.chain, pair.key, earlier), next);
      var r := CaManager.Handle(ManagerNames(opts), bundle, v, vol, call => false);
      && r.Ok?
      && (opts.caFileName == "ca.crt" ==> HasFile(r.value, "ca.crt", bundle))
      && (opts.caFileName != "ca.crt" ==> "ca.crt" !in r.value.files)
      && HasFile(r.value, opts.certFileName, pair.chain) && HasFile(r.value, opts.keyFileName, pair.key)
  {
  }

  /** With an empty certificate or key name the manager cannot read a single volume the driver writes. */
  lemma EmptyNamesFailEveryPass(opts: DriverOptions, v: VolumeId, pair: Keypair, ca: Bytes, bundle: Bytes,
                                next: Option<int>, io: CaManager.Faults)
    requires opts.certFileName == "" || opts.keyFileName == ""
    ensures CaManager.Handle(ManagerNames(opts), bundle, v,
                              Volume(FileSet(DriverNames(opts), pair.chain, pair.key, ca), next), io).Err?
  {
  }
}
