/** The approver's decision on a certificate request annotated with a SPIFFE identity. */
module Evaluator {
  import opened Base
  import opened X509
  import opened SubjectAltName
  import opened KeyUsage
  import opened Identity

  datatype Usage = KeyEncipherment | DigitalSignature | ClientAuth | ServerAuth | OtherUsage(name: string)

  const REQUIRED_USAGES := [KeyEncipherment, DigitalSignature, ClientAuth, ServerAuth]

  /** What the evaluator reads of a CertificateRequest; `request` is None when its bytes do not parse. */
  datatype Spec = Spec(request: Option<Csr>, duration: Option<int>, isCA: bool, usages: seq<Usage>, username: string)

  datatype Options = Options(trustDomain: string, duration: int,
                             useOwnServiceAccount: bool, driverServiceAccount: string)

  datatype ExtensionError = ExtraExtensions | BadSan(san: SanError) | BadKeyUsage(value: Bytes)
                          | BadExtendedUsage(eku: EkuError) | ForbiddenExtension(id: Oid)

  datatype EvalError = BadRequest | WrongDuration | BadSignature | ForbiddenNames
                     | BadExtensions(errors: seq<ExtensionError>) | IsCA | WrongUsages
                     | BadIdentity(identity: IdentityError)

  // ---------- Extensions ----------

  function ExtensionVerdict(ext: Extension): Outcome<ExtensionError> {
    if ext.id == OID_SUBJECT_ALT_NAME then
      match SanVerdict(ext) { case Pass => Pass case Fail(e) => Fail(BadSan(e)) }
    else if ext.id == OID_KEY_USAGE then
      if AllowedKeyUsage(ext.value) then Pass else Fail(BadKeyUsage(ext.value))
    else if ext.id == OID_EXTENDED_KEY_USAGE then
      match EkuVerdict(ext) { case Pass => Pass case Fail(e) => Fail(BadExtendedUsage(e)) }
    else Fail(ForbiddenExtension(ext.id))
  }

  /** utilerrors.NewAggregate: nil entries are dropped, and an empty rest is nil. */
  function Aggregate(el: seq<Outcome<ExtensionError>>): (errs: seq<ExtensionError>)
    ensures errs == [] <==> forall i :: 0 <= i < |el| ==> el[i].Pass?
  {
    if el == [] then []
    else
      var last := el[|el| - 1];
      Aggregate(el[..|el| - 1]) + if last.Pass? then [] else [last.error]
  }

  /** One more entry adds its error at the end, or nothing. */
  lemma AggregateSnoc(el: seq<Outcome<ExtensionError>>, x: Outcome<ExtensionError>)
    ensures Aggregate(el + [x]) == Aggregate(el) + if x.Pass? then [] else [x.error]
  {
    assert (el + [x])[..|el|] == el;
  }

  /** The errors of two lists are those of the first and then those of the second: none is lost or moved. */
  lemma {:induction false} AggregateConcat(a: seq<Outcome<ExtensionError>>, b: seq<Outcome<ExtensionError>>)
    ensures Aggregate(a + b) == Aggregate(a) + Aggregate(b)
    decreases |b|
  {
    if b == [] {
      assert a + b == a && Aggregate(b) == [];
    } else {
      hide Aggregate;
      var front, x := b[..|b| - 1], b[|b| - 1];
      assert b == front + [x];
      ConcatAssociative(a, front, [x]);
      AggregateConcat(a, front);
      AggregateSnoc(a + front, x);
      AggregateSnoc(front, x);
      ConcatAssociative(Aggregate(a), Aggregate(front), if x.Pass? then [] else [x.error]);
    }
  }

  /** The list the loop has built after the first k extensions. */
  function Checks(csr: Csr, k: nat): seq<Outcome<ExtensionError>>
    requires k <= |csr.extensions|
  {
    if k == 0 then (if csr.extraExtensions != [] then [Fail(ExtraExtensions)] else [])
    else Checks(csr, k - 1) + [ExtensionVerdict(csr.extensions[k - 1])]
  }

  function ExtensionErrors(csr: Csr): seq<ExtensionError> {
    Aggregate(Checks(csr, |csr.extensions|))
  }

  /** One turn of the loop's switch. */
  method ValidateExtension(ext: Extension) returns (err: Outcome<ExtensionError>)
    ensures err == ExtensionVerdict(ext)
    ensures err.Pass? <==> AllowedExtension(ext)
  {
    hide SanVerdict, EkuVerdict, IsUriSequence, AllowedExtendedUsage, AllowedKeyUsage;
    ExtensionExact(ext);
    if ext.id == OID_SUBJECT_ALT_NAME {
      var san := ValidateSubjectAltName(ext);
      err := match san case Pass => Pass case Fail(e) => Fail(BadSan(e));
    } else if ext.id == OID_KEY_USAGE {
      var ok := ValidateKeyUsage(ext.value);
      err := if ok then Pass else Fail(BadKeyUsage(ext.value));
    } else if ext.id == OID_EXTENDED_KEY_USAGE {
      var eku := ValidateExtendedKeyUsage(ext);
      err := match eku case Pass => Pass case Fail(e) => Fail(BadExtendedUsage(e));
    } else {
      err := Fail(ForbiddenExtension(ext.id));
    }
  }

  /** validateCSRExtentions. */
  method ValidateCsrExtensions(csr: Csr) returns (errs: seq<ExtensionError>)
    ensures errs == ExtensionErrors(csr)
    ensures errs == [] <==> csr.extraExtensions == []
                            && forall i :: 0 <= i < |csr.extensions| ==> AllowedExtension(csr.extensions[i])
  {
    hide ExtensionVerdict, AllowedExtension;
    ExtensionsExact(csr);
    var el: seq<Outcome<ExtensionError>> := [];
    if |csr.extraExtensions| > 0 {
      el := el + [Fail(ExtraExtensions)];
    }
    for k := 0 to |csr.extensions|
      invariant el == Checks(csr, k)
    {
      var err := ValidateExtension(csr.extensions[k]);
      el := el + [err];
    }
    return Aggregate(el);
  }

  /** The extensions a request may carry, by the grammars of the three kinds. */
  ghost predicate AllowedExtension(ext: Extension) {
    || (ext.id == OID_SUBJECT_ALT_NAME && IsUriSequence(ext.value))
    || (ext.id == OID_KEY_USAGE && AllowedKeyUsage(ext.value))
    || (ext.id == OID_EXTENDED_KEY_USAGE && AllowedExtendedUsage(ext.value))
  }

  lemma OidsDistinct()
    ensures OID_SUBJECT_ALT_NAME != OID_KEY_USAGE
    ensures OID_SUBJECT_ALT_NAME != OID_EXTENDED_KEY_USAGE
    ensures OID_KEY_USAGE != OID_EXTENDED_KEY_USAGE
  {
    assert OID_SUBJECT_ALT_NAME[3] == 17 && OID_KEY_USAGE[3] == 15 && OID_EXTENDED_KEY_USAGE[3] == 37;
  }

  lemma ExtensionExact(ext: Extension)
    ensures ExtensionVerdict(ext).Pass? <==> AllowedExtension(ext)
  {
    hide SanVerdict, EkuVerdict, IsUriSequence, AllowedExtendedUsage, AllowedKeyUsage;
    OidsDistinct();
    SanVerdictExact(ext);
    EkuVerdictExact(ext);
  }

  lemma {:induction false} ChecksExact(csr: Csr, k: nat)
    requires k <= |csr.extensions|
    ensures (forall i :: 0 <= i < |Checks(csr, k)| ==> Checks(csr, k)[i].Pass?)
       <==> csr.extraExtensions == [] && forall i :: 0 <= i < k ==> AllowedExtension(csr.extensions[i])
  {
    hide ExtensionVerdict, AllowedExtension;
    if k == 0 {
      if csr.extraExtensions != [] { assert Checks(csr, k)[0].Fail?; }
    } else {
      ChecksExact(csr, k - 1);
      ExtensionExact(csr.extensions[k - 1]);
      var before := Checks(csr, k - 1);
      assert Checks(csr, k)[|before|] == ExtensionVerdict(csr.extensions[k - 1]);
      assert forall i :: 0 <= i < |before| ==> Checks(csr, k)[i] == before[i];
    }
  }

  lemma ExtensionsExact(csr: Csr)
    ensures ExtensionErrors(csr) == []
       <==> csr.extraExtensions == [] && forall i :: 0 <= i < |csr.extensions| ==> AllowedExtension(csr.extensions[i])
  {
    hide AllowedExtension;
    ChecksExact(csr, |csr.extensions|);
  }

  // ---------- The whole request ----------

  /** util.EqualKeyUsagesUnsorted: equal once sorted, that is, equal as multisets. */
  predicate SameUsages(a: seq<Usage>, b: seq<Usage>) {
    multiset(a) == multiset(b)
  }

  function Evaluate(opts: Options, spec: Spec): Outcome<EvalError> {
    if spec.request.None? then Fail(BadRequest)
    else
      var csr := spec.request.value;
      if spec.duration != Some(opts.duration) then Fail(WrongDuration)
      else if !csr.signed then Fail(BadSignature)
      else if |csr.dnsNames| > 0 || |csr.ipAddresses| > 0 || |csr.commonName| > 0 || |csr.emailAddresses| > 0 then
        Fail(ForbiddenNames)
      else if ExtensionErrors(csr) != [] then Fail(BadExtensions(ExtensionErrors(csr)))
      else if spec.isCA then Fail(IsCA)
      else if !SameUsages(spec.usages, REQUIRED_USAGES) then Fail(WrongUsages)
      else
        var identity := if opts.useOwnServiceAccount
                        then ValidateDriverAccount(opts.trustDomain, opts.driverServiceAccount, csr.uris, spec.username)
                        else ValidateIdentity(opts.trustDomain, csr.uris, spec.username);
        match identity { case Pass => Pass case Fail(e) => Fail(BadIdentity(e)) }
  }

  /** The identity demanded by the mode. */
  ghost predicate IdentityHolds(opts: Options, uris: seq<Uri>, username: string) {
    if opts.useOwnServiceAccount then
      && |uris| == 1 && uris[0].scheme == "spiffe" && uris[0].host == opts.trustDomain
      && username == opts.driverServiceAccount
    else
      exists namespace, account :: Corresponds(opts.trustDomain, uris, username, namespace, account)
  }

  /** A request that may be approved, said without reference to the order of the checks or of any list. */
  ghost predicate Acceptable(opts: Options, spec: Spec) {
    && spec.request.Some?
    && spec.duration == Some(opts.duration)
    && !spec.isCA
    && multiset(spec.usages) == multiset{KeyEncipherment, DigitalSignature, ClientAuth, ServerAuth}
    && var csr := spec.request.value;
    && csr.signed
    && csr.dnsNames == [] && csr.ipAddresses == [] && csr.commonName == "" && csr.emailAddresses == []
    && csr.extraExtensions == []
    && (forall ext :: ext in multiset(csr.extensions) ==> AllowedExtension(ext))
    && IdentityHolds(opts, csr.uris, spec.username)
  }

  /** Evaluate approves exactly the acceptable requests. */
  lemma EvaluateExact(opts: Options, spec: Spec)
    ensures Evaluate(opts, spec).Pass? <==> Acceptable(opts, spec)
  {
    hide ExtensionErrors, AllowedExtension, ValidateIdentity, Corresponds;
    assert multiset(REQUIRED_USAGES) == multiset{KeyEncipherment, DigitalSignature, ClientAuth, ServerAuth};
    if spec.request.Some? {
      var csr := spec.request.value;
      ExtensionsExact(csr);
      IdentityExact(opts.trustDomain, csr.uris, spec.username);
      assert forall ext :: ext in multiset(csr.extensions) <==> ext in csr.extensions;
    }
  }

  /** A denial names a cause that is there. */
  lemma DenialNamesCause(opts: Options, spec: Spec)
    requires Evaluate(opts, spec).Fail?
    ensures match Evaluate(opts, spec).error
            case BadRequest => spec.request.None?
            case WrongDuration => spec.duration != Some(opts.duration)
            case BadSignature => spec.request.Some? && !spec.request.value.signed
            case ForbiddenNames => spec.request.Some? &&
              var csr := spec.request.value;
              csr.dnsNames != [] || csr.ipAddresses != [] || csr.commonName != "" || csr.emailAddresses != []
            case BadExtensions(errors) => spec.request.Some? && errors == ExtensionErrors(spec.request.value) != []
            case IsCA => spec.isCA
            case WrongUsages =>
              multiset(spec.usages) != multiset{KeyEncipherment, DigitalSignature, ClientAuth, ServerAuth}
            case BadIdentity(_) => spec.request.Some? && !IdentityHolds(opts, spec.request.value.uris, spec.username)
  {
    hide ExtensionErrors, ValidateIdentity, Corresponds;
    assert multiset(REQUIRED_USAGES) == multiset{KeyEncipherment, DigitalSignature, ClientAuth, ServerAuth};
    if spec.request.Some? { IdentityExact(opts.trustDomain, spec.request.value.uris, spec.username); }
  }

  /** Reordering extensions and usages never changes the verdict. */
  lemma OrderIndependent(opts: Options, spec: Spec, extensions: seq<Extension>, usages: seq<Usage>)
    requires spec.request.Some?
    requires multiset(extensions) == multiset(spec.request.value.extensions)
    requires multiset(usages) == multiset(spec.usages)
    ensures var csr := spec.request.value.(extensions := extensions);
      Evaluate(opts, spec).Pass? <==> Evaluate(opts, spec.(request := Some(csr), usages := usages)).Pass?
  {
    hide Evaluate, AllowedExtension, IdentityHolds;
    EvaluateExact(opts, spec);
    EvaluateExact(opts, spec.(request := Some(spec.request.value.(extensions := extensions)), usages := usages));
  }
}
