/**
 The approver's walk over a subject alternative name extension, and the encoder the driver uses.
 GeneralNames is the type of section 4.2.1.6 of RFC 5280: a SEQUENCE of context-tagged names, of
 which tag 6 is a URI.
 */
module SubjectAltName {
  import opened Base
  import opened Der
  import opened X509

  const TAG_URI := 6

  datatype SanError = NotSan | Malformed | TrailingData | NotSequence | MalformedName | NotUri(contents: Bytes)

  // ---------- The grammar, independent of the walk ----------

  /** `value` is one universal constructed SEQUENCE whose contents are exactly `names`. */
  predicate Encodes(value: Bytes, names: seq<Element>) {
    && (forall i :: 0 <= i < |names| ==> Representable(names[i]))
    && |PrintAll(names)| <= MAX_INT32
    && value == PrintElement(Element(CLASS_UNIVERSAL, true, TAG_SEQUENCE, PrintAll(names)))
  }

  predicate AllTagged(names: seq<Element>, tag: nat) {
    forall i :: 0 <= i < |names| ==> names[i].tag == tag
  }

  ghost predicate IsUriSequence(value: Bytes) {
    exists names :: Encodes(value, names) && AllTagged(names, TAG_URI)
  }

  // ---------- The walk ----------

  /** The verdict of the loop on the contents of the sequence. */
  function NamesVerdict(b: Bytes): Outcome<SanError>
    decreases |b|
  {
    if b == [] then Pass
    else
      match ParseElement(b)
      case None => Fail(MalformedName)
      case Some((e, rest)) =>
        ElementProgress(b);
        if e.tag != TAG_URI then Fail(NotUri(e.contents)) else NamesVerdict(rest)
  }

  function SanVerdict(ext: Extension): Outcome<SanError> {
    if ext.id != OID_SUBJECT_ALT_NAME then Fail(NotSan)
    else
      match ParseElement(ext.value)
      case None => Fail(Malformed)
      case Some((e, rest)) =>
        if rest != [] then Fail(TrailingData)
        else if !e.compound || e.tag != TAG_SEQUENCE || e.cls != CLASS_UNIVERSAL then Fail(NotSequence)
        else NamesVerdict(e.contents)
  }

  lemma {:induction false} NamesVerdictExact(b: Bytes)
    ensures NamesVerdict(b).Pass? <==> ParseAll(b).Some? && AllTagged(ParseAll(b).value, TAG_URI)
    decreases |b|
  {
    hide ParseElement;
    if b != [] && ParseElement(b).Some? {
      var (e, rest) := ParseElement(b).value;
      ElementProgress(b);
      NamesVerdictExact(rest);
      if ParseAll(rest).Some? {
        var es := ParseAll(rest).value;
        var all := [e] + es;
        assert ParseAll(b) == Some(all) && all[0] == e;
        assert forall i :: 0 < i < |all| ==> all[i] == es[i - 1];
        assert forall i :: 0 <= i < |es| ==> es[i] == all[i + 1];
      }
    }
  }

  /** The walk accepts a value exactly when the grammar does. */
  lemma SanVerdictExact(ext: Extension)
    ensures SanVerdict(ext).Pass? <==> ext.id == OID_SUBJECT_ALT_NAME && IsUriSequence(ext.value)
  {
    hide ParseElement, PrintElement, ParseAll, PrintAll, NamesVerdict;
    var v := ext.value;
    if SanVerdict(ext).Pass? {
      var (e, rest) := ParseElement(v).value;
      ElementExact(v, e, rest);
      NamesVerdictExact(e.contents);
      var names := ParseAll(e.contents).value;
      ElementsExact(e.contents, names);
      assert v == PrintElement(e) + [] == PrintElement(e);
      assert Encodes(v, names);
    }
    if IsUriSequence(v) {
      var names :| Encodes(v, names) && AllTagged(names, TAG_URI);
      var e := Element(CLASS_UNIVERSAL, true, TAG_SEQUENCE, PrintAll(names));
      assert v == PrintElement(e) + [];
      ElementExact(v, e, []);
      ElementsExact(e.contents, names);
      NamesVerdictExact(e.contents);
    }
  }

  /** validateSubjectAltNameExtension: rebinds the remaining bytes until none are left. */
  method ValidateSubjectAltName(ext: Extension) returns (err: Outcome<SanError>)
    ensures err == SanVerdict(ext)
    ensures err.Pass? <==> ext.id == OID_SUBJECT_ALT_NAME && IsUriSequence(ext.value)
  {
    SanVerdictExact(ext);
    if ext.id != OID_SUBJECT_ALT_NAME {
      return Fail(NotSan);
    }
    var outer := ParseElement(ext.value);
    if outer.None? {
      return Fail(Malformed);
    }
    var sequence := outer.value.0;
    if |outer.value.1| != 0 {
      return Fail(TrailingData);
    }
    if !sequence.compound || sequence.tag != TAG_SEQUENCE || sequence.cls != CLASS_UNIVERSAL {
      return Fail(NotSequence);
    }
    var bytes := sequence.contents;
    while |bytes| > 0
      invariant NamesVerdict(sequence.contents) == NamesVerdict(bytes)
      decreases |bytes|
    {
      var next := ParseElement(bytes);
      if next.None? {
        return Fail(MalformedName);
      }
      ElementProgress(bytes);
      bytes := next.value.1;
      if next.value.0.tag != TAG_URI {
        return Fail(NotUri(next.value.0.contents));
      }
    }
    return Pass;
  }

  /**
   The walk tests tag numbers only, so it also accepts an empty sequence and a universal element with
   tag number 6 (an object identifier), although neither is a GeneralNames value of URIs.
   */
  lemma TagNumberIsNotClass()
    ensures IsUriSequence([0x30, 0x00])
    ensures IsUriSequence([0x30, 0x03, 0x06, 0x01, 0x2a])
  {
    assert Encodes([0x30, 0x00], []);
    var oid := Element(CLASS_UNIVERSAL, false, 6, [0x2a]);
    assert PrintElement(oid) == [0x06, 0x01, 0x2a];
    assert PrintAll([oid]) == PrintElement(oid) + PrintAll([oid][1..]) == [0x06, 0x01, 0x2a];
    assert Encodes([0x30, 0x03, 0x06, 0x01, 0x2a], [oid]);
  }

  // ---------- The encoder and the reader of URI names ----------

  predicate IsIA5(s: string) {
    forall i :: 0 <= i < |s| ==> s[i] < 128 as char
  }

  function ToBytes(s: string): (b: Bytes)
    requires IsIA5(s)
    ensures |b| == |s|
  {
    seq(|s|, i requires 0 <= i < |s| => s[i] as int)
  }

  function UriName(s: string): Element
    requires IsIA5(s)
  {
    Element(CLASS_CONTEXT, false, TAG_URI, ToBytes(s))
  }

  function UriNames(uris: seq<string>): seq<Element>
    requires forall i :: 0 <= i < |uris| ==> IsIA5(uris[i])
  {
    seq(|uris|, i requires 0 <= i < |uris| => UriName(uris[i]))
  }

  /** The URIs fit the encoding: IA5 text, and a total length the decoder can represent. */
  predicate Encodable(uris: seq<string>) {
    && (forall i :: 0 <= i < |uris| ==> IsIA5(uris[i]) && |uris[i]| <= MAX_INT32)
    && |PrintAll(UriNames(uris))| <= MAX_INT32
  }

  /** MarshalSANs on URIs alone: critical when there is no subject. */
  function MarshalUriSans(uris: seq<string>, hasSubject: bool): Extension
    requires Encodable(uris)
  {
    Extension(OID_SUBJECT_ALT_NAME, !hasSubject,
              PrintElement(Element(CLASS_UNIVERSAL, true, TAG_SEQUENCE, PrintAll(UriNames(uris)))))
  }

  predicate IsUriName(e: Element) {
    e.cls == CLASS_CONTEXT && !e.compound && e.tag == TAG_URI
  }

  /** Text of the URI names among `names`, in order. */
  function UriTexts(names: seq<Element>): seq<Bytes> {
    if names == [] then []
    else (if IsUriName(names[0]) then [names[0].contents] else []) + UriTexts(names[1..])
  }

  /** The request parser's reading of a subject alternative name: the URI names, in order. */
  function ReadUris(value: Bytes): Option<seq<Bytes>> {
    match ParseElement(value)
    case None => None
    case Some((e, rest)) =>
      if rest != [] || !e.compound || e.tag != TAG_SEQUENCE || e.cls != CLASS_UNIVERSAL then None
      else
        match ParseAll(e.contents)
        case None => None
        case Some(names) => Some(UriTexts(names))
  }

  lemma {:induction false} UriTextsOfNames(uris: seq<string>)
    requires forall i :: 0 <= i < |uris| ==> IsIA5(uris[i])
    ensures UriTexts(UriNames(uris)) == seq(|uris|, i requires 0 <= i < |uris| => ToBytes(uris[i]))
  {
    if uris != [] {
      assert UriNames(uris)[1..] == UriNames(uris[1..]);
      UriTextsOfNames(uris[1..]);
    }
  }

  /** What the encoder writes is accepted by the walk and read back as the same URIs in the same order. */
  lemma SanRoundTrip(uris: seq<string>, hasSubject: bool)
    requires Encodable(uris)
    ensures var ext := MarshalUriSans(uris, hasSubject);
      && SanVerdict(ext) == Pass
      && ReadUris(ext.value) == Some(seq(|uris|, i requires 0 <= i < |uris| => ToBytes(uris[i])))
  {
    hide ParseElement, PrintElement, ParseAll, PrintAll, NamesVerdict;
    var ext := MarshalUriSans(uris, hasSubject);
    var names := UriNames(uris);
    assert Encodes(ext.value, names) && AllTagged(names, TAG_URI);
    SanVerdictExact(ext);
    var e := Element(CLASS_UNIVERSAL, true, TAG_SEQUENCE, PrintAll(names));
    assert ext.value == PrintElement(e) + [];
    ElementExact(ext.value, e, []);
    ElementsExact(e.contents, names);
    UriTextsOfNames(uris);
  }
}
