/**
 Key usage and extended key usage checks of the approver (sections 4.2.1.3 and 4.2.1.12 of RFC 5280).
 */
module KeyUsage {
  import opened Base
  import opened Der
  import opened X509

  // ---------- Key usage: clearing the allowed bits ----------

  type Mask = seq<bv8>

  /** allowedKeyUsages: the encodings of digitalSignature and keyEncipherment alone. */
  const ALLOWED_KEY_USAGES: seq<Mask> := [[3, 2, 7, 128], [3, 2, 5, 32]]

  predicate SameLength(masks: seq<Mask>, n: nat) {
    forall m :: 0 <= m < |masks| ==> |masks[m]| == n
  }

  /** The OR of the masks at position i. */
  function UnionAt(masks: seq<Mask>, n: nat, i: nat): bv8
    requires SameLength(masks, n) && i < n
  {
    if masks == [] then 0 else UnionAt(masks[..|masks| - 1], n, i) | masks[|masks| - 1][i]
  }

  predicate Subset(b: bv8, mask: bv8) {
    b & mask == b
  }

  lemma ClearedUnion(b: bv8, u: bv8, m: bv8)
    ensures (b & !u) & !m == b & !(u | m)
  {
  }

  lemma ClearedIsSubset(b: bv8, u: bv8)
    ensures b & !u == 0 <==> Subset(b, u)
  {
  }

  /** The nested loop: clears, in place, the bits of every mask. */
  method ClearMasks(ext: array<bv8>, masks: seq<Mask>)
    requires SameLength(masks, ext.Length)
    modifies ext
    ensures forall i :: 0 <= i < ext.Length ==> ext[i] == old(ext[i]) & !UnionAt(masks, ext.Length, i)
    ensures (forall i :: 0 <= i < ext.Length ==> ext[i] == 0)
       <==> (forall i :: 0 <= i < ext.Length ==> Subset(old(ext[i]), UnionAt(masks, ext.Length, i)))
  {
    ghost var n := ext.Length;
    for m := 0 to |masks|
      invariant forall i :: 0 <= i < n ==> ext[i] == old(ext[i]) & !UnionAt(masks[..m], n, i)
    {
      ghost var before := masks[..m];
      assert masks[..m + 1][..m] == before;
      for i := 0 to |masks[m]|
        invariant forall j :: 0 <= j < i ==> ext[j] == old(ext[j]) & !UnionAt(masks[..m + 1], n, j)
        invariant forall j :: i <= j < n ==> ext[j] == old(ext[j]) & !UnionAt(before, n, j)
      {
        ClearedUnion(old(ext[i]), UnionAt(before, n, i), masks[m][i]);
        ext[i] := ext[i] & !masks[m][i];
      }
    }
    assert masks[..|masks|] == masks;
    forall i | 0 <= i < n ensures ext[i] == 0 <==> Subset(old(ext[i]), UnionAt(masks, n, i)) {
      ClearedIsSubset(old(ext[i]), UnionAt(masks, n, i));
    }
  }

  /** Octets as bit vectors. */
  function ToBits(value: Bytes): (m: Mask)
    ensures |m| == |value|
  {
    seq(|value|, i requires 0 <= i < |value| => value[i] as bv8)
  }

  /** Four octets, each within the OR of the allowed masks. */
  predicate AllowedKeyUsage(value: Bytes) {
    && |value| == 4
    && Subset(value[0] as bv8, 3) && Subset(value[1] as bv8, 2)
    && Subset(value[2] as bv8, 7) && Subset(value[3] as bv8, 160)
  }

  lemma AllowedUnions()
    ensures SameLength(ALLOWED_KEY_USAGES, 4)
    ensures UnionAt(ALLOWED_KEY_USAGES, 4, 0) == 3 && UnionAt(ALLOWED_KEY_USAGES, 4, 1) == 2
    ensures UnionAt(ALLOWED_KEY_USAGES, 4, 2) == 7 && UnionAt(ALLOWED_KEY_USAGES, 4, 3) == 160
  {
    var a := ALLOWED_KEY_USAGES;
    assert a[..1] == [a[0]] && a[..1][..0] == [];
    forall i: nat | i < 4 ensures UnionAt(a, 4, i) == a[0][i] | a[1][i] {
      assert UnionAt(a[..1], 4, i) == UnionAt(a[..1][..0], 4, i) | a[0][i] == a[0][i];
    }
  }

  /** validateKeyUsageExtension. */
  method ValidateKeyUsage(value: Bytes) returns (ok: bool)
    ensures ok <==> AllowedKeyUsage(value)
  {
    if |value| != 4 {
      return false;
    }
    var bits := ToBits(value);
    var ext := new bv8[4](i requires 0 <= i < 4 => bits[i]);
    AllowedUnions();
    ClearMasks(ext, ALLOWED_KEY_USAGES);
    ok := ext[..] == [0, 0, 0, 0];
    assert ok <==> ext[0] == 0 && ext[1] == 0 && ext[2] == 0 && ext[3] == 0;
  }

  // ---------- Extended key usage: object identifiers ----------

  const OID_SERVER_AUTH: Oid := [1, 3, 6, 1, 5, 5, 7, 3, 1]
  const OID_CLIENT_AUTH: Oid := [1, 3, 6, 1, 5, 5, 7, 3, 2]

  predicate ValidArcs(arcs: seq<nat>) {
    forall i :: 0 <= i < |arcs| ==> arcs[i] <= MAX_INT32
  }

  /** Identifiers the decoder can produce: the first two arcs share one number. */
  predicate ValidOid(o: Oid) {
    && |o| >= 2 && o[0] <= 2 && (o[0] < 2 ==> o[1] < 40)
    && o[0] * 40 + o[1] <= MAX_INT32
    && ValidArcs(o[2..])
  }

  function PrintArcs(arcs: seq<nat>): Bytes {
    if arcs == [] then [] else PrintBase128(arcs[0]) + PrintArcs(arcs[1..])
  }

  function PrintOid(o: Oid): Bytes
    requires ValidOid(o)
  {
    PrintBase128(o[0] * 40 + o[1]) + PrintArcs(o[2..])
  }

  function ParseArcs(b: Bytes): Option<seq<nat>>
    decreases |b|
  {
    if b == [] then Some([])
    else
      match ParseBase128(b)
      case None => None
      case Some((n, rest)) =>
        Base128Exact(b, n, rest);
        match ParseArcs(rest)
        case None => None
        case Some(arcs) => Some([n] + arcs)
  }

  /** The decoder's reading of an OBJECT IDENTIFIER's contents. */
  function ParseOid(b: Bytes): Option<Oid> {
    match ParseBase128(b)
    case None => None
    case Some((n, rest)) =>
      match ParseArcs(rest)
      case None => None
      case Some(arcs) => Some((if n < 80 then [n / 40, n % 40] else [2, n - 80]) + arcs)
  }

  lemma {:induction false} ArcsExact(b: Bytes, arcs: seq<nat>)
    ensures ParseArcs(b) == Some(arcs) <==> ValidArcs(arcs) && b == PrintArcs(arcs)
    decreases |b|, |arcs|
  {
    hide ParseBase128, PrintBase128;
    if ParseArcs(b) == Some(arcs) && b != [] {
      var (n, rest) := ParseBase128(b).value;
      Base128Exact(b, n, rest);
      assert arcs[1..] == ParseArcs(rest).value && arcs[0] == n;
      ArcsExact(rest, arcs[1..]);
    }
    if ValidArcs(arcs) && b == PrintArcs(arcs) && arcs != [] {
      Base128Exact(b, arcs[0], PrintArcs(arcs[1..]));
      ArcsExact(PrintArcs(arcs[1..]), arcs[1..]);
      assert arcs == [arcs[0]] + arcs[1..];
    }
  }

  /** An identifier has exactly one encoding, and the decoder accepts nothing else. */
  lemma OidExact(b: Bytes, o: Oid)
    ensures ParseOid(b) == Some(o) <==> ValidOid(o) && b == PrintOid(o)
  {
    hide ParseBase128, PrintBase128, ParseArcs, PrintArcs;
    if ParseOid(b) == Some(o) {
      var (n, rest) := ParseBase128(b).value;
      Base128Exact(b, n, rest);
      ArcsExact(rest, o[2..]);
      assert n == o[0] * 40 + o[1];
    }
    if ValidOid(o) && b == PrintOid(o) {
      var n := o[0] * 40 + o[1];
      Base128Exact(b, n, PrintArcs(o[2..]));
      ArcsExact(PrintArcs(o[2..]), o[2..]);
      assert o == [o[0], o[1]] + o[2..];
    }
  }

  predicate IsOidElement(e: Element) {
    e.cls == CLASS_UNIVERSAL && !e.compound && e.tag == TAG_OID
  }

  /** Reads each element as an object identifier. */
  function ParseOids(es: seq<Element>): Option<seq<Oid>> {
    if es == [] then Some([])
    else if !IsOidElement(es[0]) || ParseOid(es[0].contents).None? then None
    else
      match ParseOids(es[1..])
      case None => None
      case Some(os) => Some([ParseOid(es[0].contents).value] + os)
  }

  /** asn1.Unmarshal into a slice of identifiers; bytes after the sequence are ignored. */
  function ParseExtendedUsages(value: Bytes): Option<seq<Oid>> {
    match ParseElement(value)
    case None => None
    case Some((e, _)) =>
      if e.cls != CLASS_UNIVERSAL || !e.compound || e.tag != TAG_SEQUENCE then None
      else
        match ParseAll(e.contents)
        case None => None
        case Some(es) => ParseOids(es)
  }

  datatype EkuError = NotExtendedKeyUsage | Unparsable | Forbidden(usages: seq<Oid>)

  predicate AllowedUsage(o: Oid) {
    o == OID_CLIENT_AUTH || o == OID_SERVER_AUTH
  }

  /** The usages outside client and server authentication, in order. */
  function ForbiddenUsages(usages: seq<Oid>): (bad: seq<Oid>)
    ensures bad == [] <==> forall i :: 0 <= i < |usages| ==> AllowedUsage(usages[i])
  {
    if usages == [] then []
    else
      var bad := ForbiddenUsages(usages[..|usages| - 1]);
      if AllowedUsage(usages[|usages| - 1]) then bad else bad + [usages[|usages| - 1]]
  }

  /** One more usage is added at the end, if it is neither client nor server authentication. */
  lemma ForbiddenSnoc(usages: seq<Oid>, o: Oid)
    ensures ForbiddenUsages(usages + [o])
         == ForbiddenUsages(usages) + if o == OID_CLIENT_AUTH || o == OID_SERVER_AUTH then [] else [o]
  {
    assert (usages + [o])[..|usages|] == usages;
  }

  /** None of the forbidden usages is lost or moved. */
  lemma {:induction false} ForbiddenConcat(a: seq<Oid>, b: seq<Oid>)
    ensures ForbiddenUsages(a + b) == ForbiddenUsages(a) + ForbiddenUsages(b)
    decreases |b|
  {
    if b == [] {
      assert a + b == a && ForbiddenUsages(b) == [];
    } else {
      hide ForbiddenUsages;
      var front, o := b[..|b| - 1], b[|b| - 1];
      assert b == front + [o];
      ConcatAssociative(a, front, [o]);
      ForbiddenConcat(a, front);
      ForbiddenSnoc(a + front, o);
      ForbiddenSnoc(front, o);
      var last := if o == OID_CLIENT_AUTH || o == OID_SERVER_AUTH then [] else [o];
      ConcatAssociative(ForbiddenUsages(a), ForbiddenUsages(front), last);
    }
  }

  function EkuVerdict(ext: Extension): Outcome<EkuError> {
    if ext.id != OID_EXTENDED_KEY_USAGE then Fail(NotExtendedKeyUsage)
    else
      match ParseExtendedUsages(ext.value)
      case None => Fail(Unparsable)
      case Some(usages) => if ForbiddenUsages(usages) == [] then Pass else Fail(Forbidden(ForbiddenUsages(usages)))
  }

  /** validateExtendedKeyUsageExtension: collects the forbidden usages. */
  method ValidateExtendedKeyUsage(ext: Extension) returns (err: Outcome<EkuError>)
    ensures err == EkuVerdict(ext)
  {
    if ext.id != OID_EXTENDED_KEY_USAGE {
      return Fail(NotExtendedKeyUsage);
    }
    var parsed := ParseExtendedUsages(ext.value);
    if parsed.None? {
      return Fail(Unparsable);
    }
    var usages := parsed.value;
    var el: seq<Oid> := [];
    for i := 0 to |usages|
      invariant el == ForbiddenUsages(usages[..i])
    {
      assert usages[..i + 1][..i] == usages[..i];
      if usages[i] != OID_CLIENT_AUTH && usages[i] != OID_SERVER_AUTH {
        el := el + [usages[i]];
      }
    }
    assert usages[..|usages|] == usages;
    return if el == [] then Pass else Fail(Forbidden(el));
  }

  // ---------- The accepted language of extended key usage ----------

  function UsageElements(usages: seq<Oid>): (es: seq<Element>)
    requires forall i :: 0 <= i < |usages| ==> AllowedUsage(usages[i])
    ensures |es| == |usages|
    ensures forall i :: 0 <= i < |es| ==> es[i] == Element(CLASS_UNIVERSAL, false, TAG_OID, UsageBytes(usages[i]))
  {
    seq(|usages|, i requires 0 <= i < |usages| => Element(CLASS_UNIVERSAL, false, TAG_OID, UsageBytes(usages[i])))
  }

  /** Contents octets of the two allowed identifiers: 1.3 in one octet, then one octet per arc. */
  function UsageBytes(o: Oid): (b: Bytes)
    requires AllowedUsage(o)
  {
    [0x2b] + o[2..]
  }

  /** A sequence of the two allowed identifiers, then any bytes. */
  ghost predicate AllowedExtendedUsage(value: Bytes) {
    exists usages, rest: Bytes :: EncodesUsages(value, usages, rest)
  }

  ghost predicate EncodesUsages(value: Bytes, usages: seq<Oid>, rest: Bytes) {
    && (forall i :: 0 <= i < |usages| ==> AllowedUsage(usages[i]))
    && |PrintAll(UsageElements(usages))| <= MAX_INT32
    && value == PrintElement(Element(CLASS_UNIVERSAL, true, TAG_SEQUENCE, PrintAll(UsageElements(usages)))) + rest
  }

  lemma SmallDigits(n: nat)
    requires n < 128
    ensures PrintBase128(n) == [n]
  {
    DigitsSmall(n, 128);
  }

  lemma {:induction false} SmallArcs(arcs: seq<nat>)
    requires forall i :: 0 <= i < |arcs| ==> arcs[i] < 128
    ensures PrintArcs(arcs) == arcs
  {
    if arcs != [] {
      SmallArcs(arcs[1..]);
      SmallDigits(arcs[0]);
      assert arcs == [arcs[0]] + arcs[1..];
    }
  }

  /** The identifiers as they stand in certificates (sections 4.2.1.3, 4.2.1.6 and 4.2.1.12 of RFC 5280). */
  lemma OidEncodings()
    ensures ValidOid(OID_KEY_USAGE) && PrintOid(OID_KEY_USAGE) == [0x55, 0x1d, 0x0f]
    ensures ValidOid(OID_SUBJECT_ALT_NAME) && PrintOid(OID_SUBJECT_ALT_NAME) == [0x55, 0x1d, 0x11]
    ensures ValidOid(OID_EXTENDED_KEY_USAGE) && PrintOid(OID_EXTENDED_KEY_USAGE) == [0x55, 0x1d, 0x25]
    ensures ValidOid(OID_SERVER_AUTH)
            && PrintOid(OID_SERVER_AUTH) == [0x2b, 0x06, 0x01, 0x05, 0x05, 0x07, 0x03, 0x01]
    ensures ValidOid(OID_CLIENT_AUTH)
            && PrintOid(OID_CLIENT_AUTH) == [0x2b, 0x06, 0x01, 0x05, 0x05, 0x07, 0x03, 0x02]
  {
    hide Digits, PrintArcs;
    SmallDigits(85);
    SmallDigits(43);
    SmallArcs(OID_KEY_USAGE[2..]);
    SmallArcs(OID_SUBJECT_ALT_NAME[2..]);
    SmallArcs(OID_EXTENDED_KEY_USAGE[2..]);
    SmallArcs(OID_SERVER_AUTH[2..]);
    SmallArcs(OID_CLIENT_AUTH[2..]);
  }

  /** An example of section 8.19.5 of ITU-T X.690: the identifier 2.999.3. */
  lemma OidExample()
    ensures ValidOid([2, 999, 3]) && PrintOid([2, 999, 3]) == [0x88, 0x37, 0x03]
  {
    var o: Oid := [2, 999, 3];
    assert o[2..] == [3] && [3][1..] == [];
    assert Digits(1079, 128) == Digits(8, 128) + [55] == [8, 55];
    assert [8, 55][1..] == [55] && Continued([8, 55]) == [136] + Continued([55]) == [136, 55];
    assert Digits(3, 128) == [3] && PrintBase128(3) == [3];
    assert PrintArcs([3]) == PrintBase128(3) + PrintArcs([]) == [3];
  }

  lemma UsageBytesPrint(o: Oid)
    requires AllowedUsage(o)
    ensures ValidOid(o) && PrintOid(o) == UsageBytes(o)
  {
    hide Digits, PrintArcs;
    SmallArcs(o[2..]);
    SmallDigits(43);
  }

  lemma {:induction false} UsageElementsExact(es: seq<Element>, usages: seq<Oid>)
    requires forall i :: 0 <= i < |usages| ==> AllowedUsage(usages[i])
    ensures ParseOids(es) == Some(usages) <==> es == UsageElements(usages)
    decreases |es|, |usages|
  {
    hide ParseOid, PrintOid, UsageBytes, AllowedUsage;
    if usages != [] && es != [] {
      UsageBytesPrint(usages[0]);
      OidExact(es[0].contents, usages[0]);
      UsageElementsExact(es[1..], usages[1..]);
      var printed := UsageElements(usages);
      assert printed[1..] == UsageElements(usages[1..]);
      assert es == printed <==> es[0] == printed[0] && es[1..] == printed[1..] by {
        assert es == [es[0]] + es[1..] && printed == [printed[0]] + printed[1..];
      }
      assert usages == [usages[0]] + usages[1..];
    }
  }

  /** The check accepts exactly the sequences of client and server authentication, ignoring trailing bytes. */
  lemma EkuVerdictExact(ext: Extension)
    ensures EkuVerdict(ext).Pass? <==> ext.id == OID_EXTENDED_KEY_USAGE && AllowedExtendedUsage(ext.value)
  {
    hide ParseElement, PrintElement, ParseAll, PrintAll, ParseOids;
    var v := ext.value;
    if EkuVerdict(ext).Pass? {
      var (e, rest) := ParseElement(v).value;
      var es := ParseAll(e.contents).value;
      var usages := ParseOids(es).value;
      ElementExact(v, e, rest);
      ElementsExact(e.contents, es);
      UsageElementsExact(es, usages);
      assert EncodesUsages(v, usages, rest);
    }
    if AllowedExtendedUsage(v) {
      var usages, rest: Bytes :| EncodesUsages(v, usages, rest);
      var es := UsageElements(usages);
      var e := Element(CLASS_UNIVERSAL, true, TAG_SEQUENCE, PrintAll(es));
      ElementExact(v, e, rest);
      ElementsExact(e.contents, es);
      UsageElementsExact(es, usages);
    }
  }
}
