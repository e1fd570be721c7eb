/** The driver: its construction, the requests it generates and the way it signs them. */
module Driver {
  import opened Base
  import opened X509
  import opened SubjectAltName
  import opened Identity
  import opened Evaluator
  import opened RuntimeConfig
  import opened Volumes

  const HOUR := 3_600_000_000_000
  const ANNOTATION_PREFIX := "spiffe.csi.cert-manager.io"
  const IDENTITY_KEY := "spiffe.csi.cert-manager.io/identity"

  datatype DriverOptions = DriverOptions(trustDomain: string, annotations: map<string, string>, duration: int,
                                         certFileName: string, keyFileName: string, caFileName: string)

  // ---------- Annotations ----------

  predicate Reserved(key: string) {
    ANNOTATION_PREFIX <= key
  }

  /** The prefix is the driver's name, and any key that starts with it is reserved, not only the driver's own. */
  lemma ReservedExactly(key: string)
    ensures Reserved(key) <==> exists rest: string :: key == "spiffe.csi.cert-manager.io" + rest
  {
    if Reserved(key) {
      assert key == "spiffe.csi.cert-manager.io" + key[|ANNOTATION_PREFIX|..];
    }
    if rest: string :| key == "spiffe.csi.cert-manager.io" + rest {
      assert key[..|ANNOTATION_PREFIX|] == ANNOTATION_PREFIX;
    }
  }

  /** sanitizeAnnotations: the custom annotations outside the driver's own prefix, and the keys dropped. */
  method SanitizeAnnotations(input: map<string, string>) returns (out: map<string, string>, dropped: set<string>)
    ensures out == map k | k in input && !Reserved(k) :: input[k]
    ensures dropped == set k | k in input && Reserved(k)
  {
    out, dropped := map[], {};
    var left := input.Keys;
    while left != {}
      invariant left <= input.Keys
      invariant out == map k | k in input && k !in left && !Reserved(k) :: input[k]
      invariant dropped == set k | k in input && k !in left && Reserved(k)
      decreases left
    {
      var key :| key in left;
      left := left - {key};
      if Reserved(key) {
        dropped := dropped + {key};
        continue;
      }
      out := out[key := input[key]];
    }
  }

  // ---------- Construction ----------

  function OrElse(s: string, default: string): string {
    if s == "" then default else s
  }

  /** The driver's file names: the CA name never comes from the options. */
  function DriverNames(opts: DriverOptions): Names {
    Names(OrElse(opts.certFileName, "tls.crt"), OrElse(opts.keyFileName, "tls.key"), "ca.crt")
  }

  /** The CA manager's file names: the options as given, without defaults. */
  function ManagerNames(opts: DriverOptions): Names {
    Names(opts.certFileName, opts.keyFileName, opts.caFileName)
  }

  function EffectiveDuration(duration: int): int {
    if duration == 0 then HOUR else duration
  }

  /** The two components agree on file names exactly under this configuration. */
  lemma NamesAgreeExactly(opts: DriverOptions)
    ensures DriverNames(opts) == ManagerNames(opts)
       <==> opts.certFileName != "" && opts.keyFileName != "" && opts.caFileName == "ca.crt"
  {
  }

  // ---------- Requests ----------

  /** What the volume metadata's token yields. */
  datatype Token = NoToken | BadToken | Claims(namespace: string, account: string)

  datatype GenerateError = NoIssuer | TokenError | MissingClaims | BadUri

  /** manager.CertificateRequestBundle. */
  datatype Bundle = Bundle(uris: seq<Uri>, isCA: bool, namespace: string, duration: int, usages: seq<Usage>,
                           issuerRef: IssuerRef, annotations: map<string, string>)

  class Driver {
    const trustDomain: string
    const annotations: map<string, string>
    const duration: int
    const names: Names
    const managerNames: Names

    /** New. */
    constructor (opts: DriverOptions)
      ensures trustDomain == opts.trustDomain && duration == EffectiveDuration(opts.duration)
      ensures annotations == map k | k in opts.annotations && !Reserved(k) :: opts.annotations[k]
      ensures names == DriverNames(opts) && managerNames == ManagerNames(opts)
      ensures duration == (if opts.duration == 0 then 3_600_000_000_000 else opts.duration)
      ensures opts.certFileName == "" ==> names.cert == "tls.crt"
      ensures opts.certFileName != "" ==> names.cert == opts.certFileName
      ensures opts.keyFileName == "" ==> names.key == "tls.key"
      ensures opts.keyFileName != "" ==> names.key == opts.keyFileName
      ensures names.ca == "ca.crt"
      ensures managerNames.cert == opts.certFileName && managerNames.key == opts.keyFileName
              && managerNames.ca == opts.caFileName
    {
      var sanitized, _ := SanitizeAnnotations(opts.annotations);
      var certFileName, keyFileName, caFileName := opts.certFileName, opts.keyFileName, "";
      if |certFileName| == 0 {
        certFileName := "tls.crt";
      }
      if |keyFileName| == 0 {
        keyFileName := "tls.key";
      }
      if |caFileName| == 0 {
        caFileName := "ca.crt";
      }
      trustDomain := opts.trustDomain;
      annotations := sanitized;
      duration := if opts.duration == 0 then HOUR else opts.duration;
      names := Names(certFileName, keyFileName, caFileName);
      managerNames := Names(opts.certFileName, opts.keyFileName, opts.caFileName);
    }

    /** generateRequest, under the configuration active at the call. The checks come in this order. */
    method GenerateRequest(config: Config, token: Token) returns (r: Result<Bundle, GenerateError>)
      ensures r == Err(NoIssuer) <==> config.issuerRef.name == ""
      ensures r == Err(TokenError) <==> config.issuerRef.name != "" && !token.Claims?
      ensures r == Err(MissingClaims) <==>
                config.issuerRef.name != "" && token.Claims? && (token.namespace == "" || token.account == "")
      ensures r == Err(BadUri) <==>
                && config.issuerRef.name != "" && token.Claims? && token.namespace != "" && token.account != ""
                && !(&& HostText(HostPart(trustDomain))
                     && RestText(AfterHost(trustDomain, token.namespace, token.account)))
      ensures r.Ok? ==>
                && token.Claims? && ParseUri(SpiffeId(trustDomain, token.namespace, token.account)).Some?
                && r.value == BundleFor(trustDomain, annotations, duration, config, token.namespace, token.account)
      ensures r.Ok? ==> r.value.issuerRef == config.issuerRef && r.value.issuerRef.name != "" && !r.value.isCA
      ensures r.Ok? ==> r.value.namespace == token.namespace && r.value.duration == duration
      ensures r.Ok? ==> |r.value.uris| == 1
                        && r.value.uris[0].ToString() == SpiffeId(trustDomain, token.namespace, token.account)
      ensures r.Ok? ==> multiset(r.value.usages) == multiset{DigitalSignature, KeyEncipherment, ServerAuth, ClientAuth}
    {
      hide HostText, RestText, HostPart, AfterHost, SpiffeId, ParseUri;
      if config.issuerRef.name == "" {
        return Err(NoIssuer);
      }
      if !token.Claims? {
        return Err(TokenError);
      }
      if |token.account| == 0 || |token.namespace| == 0 {
        return Err(MissingClaims);
      }
      var id := SpiffeId(trustDomain, token.namespace, token.account);
      IdParsesExactly(trustDomain, token.namespace, token.account);
      var uri := ParseUri(id);
      if uri.None? {
        return Err(BadUri);
      }
      ParseUriPrints(id);
      var crAnnotations := map[IDENTITY_KEY := id];
      crAnnotations := crAnnotations + annotations;
      return Ok(Bundle([uri.value], false, token.namespace, duration,
                       [DigitalSignature, KeyEncipherment, ServerAuth, ClientAuth], config.issuerRef, crAnnotations));
    }
  }

  /** The bundle for an account, once issuer, token and ID are in order. */
  function BundleFor(trustDomain: string, annotations: map<string, string>, duration: int, config: Config,
                     namespace: string, account: string): Bundle
    requires ParseUri(SpiffeId(trustDomain, namespace, account)).Some?
  {
    var id := SpiffeId(trustDomain, namespace, account);
    Bundle([ParseUri(id).value], false, namespace, duration,
           [DigitalSignature, KeyEncipherment, ServerAuth, ClientAuth], config.issuerRef,
           map[IDENTITY_KEY := id] + annotations)
  }

  lemma IdentityKeyReserved()
    ensures Reserved(IDENTITY_KEY)
  {
  }

  /** Custom annotations never replace the identity, and exactly those outside the prefix arrive beside it. */
  lemma IdentityAnnotationKept(opts: DriverOptions, config: Config, namespace: string, account: string)
    requires ParseUri(SpiffeId(opts.trustDomain, namespace, account)).Some?
    ensures var kept := map k | k in opts.annotations && !Reserved(k) :: opts.annotations[k];
      var bundle := BundleFor(opts.trustDomain, kept, opts.duration, config, namespace, account);
      && IDENTITY_KEY == "spiffe.csi.cert-manager.io/identity" && IDENTITY_KEY in bundle.annotations
      && bundle.annotations[IDENTITY_KEY] == SpiffeId(opts.trustDomain, namespace, account)
      && (forall k :: k in opts.annotations && !Reserved(k) ==>
            k in bundle.annotations && bundle.annotations[k] == opts.annotations[k])
      && (forall k :: k in bundle.annotations && k != IDENTITY_KEY ==> k in opts.annotations && !Reserved(k))
  {
    hide SpiffeId, ParseUri;
    IdentityKeyReserved();
  }

  // ---------- Signing ----------

  datatype SignError = NotEncodable

  function UriStrings(uris: seq<Uri>): (strings: seq<string>)
    ensures |strings| == |uris| && forall i :: 0 <= i < |uris| ==> strings[i] == uris[i].ToString()
  {
    seq(|uris|, i requires 0 <= i < |uris| => uris[i].ToString())
  }

  predicate HasSan(extensions: seq<Extension>) {
    exists i :: 0 <= i < |extensions| && extensions[i].id == OID_SUBJECT_ALT_NAME
  }

  /** The extensions of the request: those given, after a non-critical SAN for the URIs unless one is given. */
  function RequestExtensions(uris: seq<Uri>, extra: seq<Extension>): seq<Extension>
    requires Encodable(UriStrings(uris))
  {
    (if uris != [] && !HasSan(extra) then [MarshalUriSans(UriStrings(uris), true)] else []) + extra
  }

  function FromBytes(b: Bytes): string {
    seq(|b|, i requires 0 <= i < |b| => b[i] as char)
  }

  /** Parses each text as a URI; None if any does not parse or has a host that is no domain name. */
  function ParseTexts(texts: seq<Bytes>): Option<seq<Uri>> {
    if texts == [] then Some([])
    else
      match (ParseUri(FromBytes(texts[0])), ParseTexts(texts[1..]))
      case (Some(u), Some(us)) => if ValidDomain(u.host) then Some([u] + us) else None
      case _ => None
  }

  /** URIs of the last subject alternative name among the extensions, as the request parser leaves them. */
  function ParsedUris(extensions: seq<Extension>): Option<seq<Uri>> {
    if extensions == [] then Some([])
    else
      var last := extensions[|extensions| - 1];
      if last.id != OID_SUBJECT_ALT_NAME then ParsedUris(extensions[..|extensions| - 1])
      else
        match ReadUris(last.value)
        case None => None
        case Some(texts) => ParseTexts(texts)
  }

  /** Creating a signing request and parsing it back; None if the result does not parse. */
  function CreateAndParse(subject: string, uris: seq<Uri>, extra: seq<Extension>): Option<Csr>
    requires Encodable(UriStrings(uris))
  {
    var extensions := RequestExtensions(uris, extra);
    match ParsedUris(extensions)
    case None => None
    case Some(us) => Some(Csr(subject, [], [], [], us, extensions, [], true))
  }

  /** An x509.CertificateRequest under construction. */
  class Request {
    var subject: string
    var uris: seq<Uri>
    var extraExtensions: seq<Extension>

    constructor (uris: seq<Uri>)
      ensures subject == "" && this.uris == uris && extraExtensions == []
    {
      subject := "";
      this.uris := uris;
      extraExtensions := [];
    }

    /** signRequest, up to the PEM text: the parsed form of what it signs. */
    method Sign() returns (r: Result<Option<Csr>, SignError>)
      modifies this
      ensures subject == old(subject)
      ensures r.Ok? <==> Encodable(UriStrings(old(uris)))
      ensures r.Err? ==> uris == old(uris) && extraExtensions == old(extraExtensions)
      ensures r.Ok? ==> uris == SignedUris(subject, old(uris))
                        && extraExtensions == SignedExtra(subject, old(uris), old(extraExtensions))
                        && r.value == Signed(subject, old(uris), old(extraExtensions))
      ensures r.Ok? && old(uris) != [] && subject == "" ==>
                && uris == [] && |extraExtensions| == |old(extraExtensions)| + 1
                && old(extraExtensions) <= extraExtensions
                && extraExtensions[|old(extraExtensions)|] == MarshalUriSans(UriStrings(old(uris)), false)
      ensures r.Ok? && (old(uris) == [] || subject != "") ==>
                uris == old(uris) && extraExtensions == old(extraExtensions)
    {
      hide Encodable, MarshalUriSans, CreateAndParse;
      var strings: seq<string> := [];
      for i := 0 to |uris|
        invariant uris == old(uris) && subject == old(subject) && extraExtensions == old(extraExtensions)
        invariant |strings| == i && forall k :: 0 <= k < i ==> strings[k] == uris[k].ToString()
      {
        strings := strings + [uris[i].ToString()];
      }
      assert strings == UriStrings(uris);
      if !Encodable(strings) {
        return Err(NotEncodable);
      }
      StillEncodable(subject, uris);
      if |uris| > 0 && subject == "" {
        extraExtensions := extraExtensions + [MarshalUriSans(strings, false)];
        uris := [];
      }
      return Ok(CreateAndParse(subject, uris, extraExtensions));
    }
  }

  /** With an empty subject the URIs move from the template into an extension of their own. */
  function SignedUris(subject: string, uris: seq<Uri>): seq<Uri> {
    if uris != [] && subject == "" then [] else uris
  }

  function SignedExtra(subject: string, uris: seq<Uri>, extra: seq<Extension>): seq<Extension>
    requires Encodable(UriStrings(uris))
  {
    if uris != [] && subject == "" then extra + [MarshalUriSans(UriStrings(uris), false)] else extra
  }

  function Signed(subject: string, uris: seq<Uri>, extra: seq<Extension>): Option<Csr>
    requires Encodable(UriStrings(uris))
  {
    StillEncodable(subject, uris);
    CreateAndParse(subject, SignedUris(subject, uris), SignedExtra(subject, uris, extra))
  }

  lemma StillEncodable(subject: string, uris: seq<Uri>)
    requires Encodable(UriStrings(uris))
    ensures Encodable(UriStrings(SignedUris(subject, uris)))
  {
    if SignedUris(subject, uris) != uris {
      assert UriNames(UriStrings([])) == [];
    }
  }

  /** A URI that its own text parses back to. */
  predicate Canonical(u: Uri) {
    ParseUri(u.ToString()) == Some(u)
  }

  predicate Domains(uris: seq<Uri>) {
    forall i :: 0 <= i < |uris| ==> ValidDomain(uris[i].host)
  }

  lemma FromToBytes(t: string)
    requires IsIA5(t)
    ensures FromBytes(ToBytes(t)) == t
  {
  }

  lemma {:induction false} TextsParse(uris: seq<Uri>, texts: seq<Bytes>)
    requires |texts| == |uris|
    requires forall i :: 0 <= i < |uris| ==>
      Canonical(uris[i]) && IsIA5(uris[i].ToString()) && texts[i] == ToBytes(uris[i].ToString())
    ensures ParseTexts(texts) == if Domains(uris) then Some(uris) else None
  {
    hide Canonical, ToBytes, FromBytes, ParseUri, IsIA5, ValidDomain;
    if uris != [] {
      FromToBytes(uris[0].ToString());
      assert ParseUri(FromBytes(texts[0])) == Some(uris[0]) by { CanonicalParses(uris[0]); }
      TextsParse(uris[1..], texts[1..]);
      assert uris == [uris[0]] + uris[1..];
      assert Domains(uris) <==> ValidDomain(uris[0].host) && Domains(uris[1..]);
    }
  }

  lemma CanonicalParses(u: Uri)
    requires Canonical(u)
    ensures ParseUri(u.ToString()) == Some(u)
  {
  }

  /**
   A signed request for URIs parses exactly when their hosts are domain names or empty. It then has exactly
   one extension: a subject alternative name that is critical exactly when the subject is empty, that the
   approver's walk accepts, and that parses back to the same URIs in the same order.
   */
  lemma SignedSan(subject: string, uris: seq<Uri>)
    requires uris != [] && Encodable(UriStrings(uris)) && forall i :: 0 <= i < |uris| ==> Canonical(uris[i])
    ensures Signed(subject, uris, []).Some? <==> Domains(uris)
    ensures Domains(uris) ==>
      var r := Signed(subject, uris, []);
      && r.value.uris == uris && |r.value.extensions| == 1
      && var san := r.value.extensions[0];
      && san.id == OID_SUBJECT_ALT_NAME && SanVerdict(san) == Pass
      && (san.critical <==> subject == "")
      && r.value == Csr(subject, [], [], [], uris, [san], [], true)
  {
    hide Encodable, SanVerdict, ReadUris, ParseTexts, Canonical, MarshalUriSans, Domains;
    var strings := UriStrings(uris);
    var san := MarshalUriSans(strings, subject != "");
    EncodableTexts(uris);
    SanRoundTrip(strings, subject != "");
    var texts := seq(|strings|, i requires 0 <= i < |strings| => ToBytes(strings[i]));
    TextsParse(uris, texts);
    StillEncodable(subject, uris);
    SanIdAndCriticality(strings, subject != "");
    var extensions := RequestExtensions(SignedUris(subject, uris), SignedExtra(subject, uris, []));
    assert extensions == [san];
    assert extensions[..0] == [] && ParsedUris(extensions) == ParseTexts(texts);
  }

  lemma EncodableTexts(uris: seq<Uri>)
    requires Encodable(UriStrings(uris))
    ensures forall i :: 0 <= i < |uris| ==> IsIA5(uris[i].ToString())
  {
    forall i | 0 <= i < |uris| ensures IsIA5(uris[i].ToString()) {
      assert IsIA5(UriStrings(uris)[i]);
    }
  }

  lemma SanIdAndCriticality(strings: seq<string>, hasSubject: bool)
    requires Encodable(strings)
    ensures MarshalUriSans(strings, hasSubject).id == OID_SUBJECT_ALT_NAME
    ensures MarshalUriSans(strings, hasSubject).critical == !hasSubject
  {
  }
}
