/**
 Distinguished encoding of one tag-length-value element (sections 8.1 and 10.1 of ITU-T X.690), as
 Go's encoding/asn1 reads it into a RawValue: tag numbers and lengths below 2^31, everything minimal.

 The parser is written from the decoder's loops and the printer from the standard. `ElementExact` and
 `ElementsExact` say that the parser accepts the printer's image and nothing else.
 */
module Der {
  import opened Base

  const MAX_INT32 := 0x7fff_ffff
  const LENGTH_SHIFT_LIMIT := 0x80_0000

  const CLASS_UNIVERSAL := 0
  const CLASS_CONTEXT := 2
  const TAG_OID := 6
  const TAG_SEQUENCE := 16

  // ---------- Positional notation ----------

  /** The two radices of the encoding: seven bits per octet in tags, eight in lengths. */
  type Radix = b: int | b == 128 || b == 256 witness 128

  /** Digits of n, most significant first, without a leading zero. */
  function Digits(n: nat, base: Radix): (ds: seq<nat>)
    ensures ds != []
    ensures forall i :: 0 <= i < |ds| ==> ds[i] < base
    ensures ds[0] == 0 ==> n == 0
  {
    if n < base then [n] else Digits(n / base, base) + [n % base]
  }

  lemma DigitsSmall(n: nat, base: Radix)
    requires n < base
    ensures Digits(n, base) == [n]
  {
  }

  lemma DigitsSnoc(a: nat, base: Radix, d: nat)
    requires d < base && a > 0
    ensures Digits(a * base + d, base) == Digits(a, base) + [d]
  {
    if base == 128 {
      assert (a * 128 + d) / 128 == a && (a * 128 + d) % 128 == d;
    } else {
      assert (a * 256 + d) / 256 == a && (a * 256 + d) % 256 == d;
    }
  }

  lemma DigitsFront(n: nat, base: Radix)
    requires n >= base
    ensures Digits(n, base)[..|Digits(n, base)| - 1] == Digits(n / base, base)
    ensures Digits(n, base)[|Digits(n, base)| - 1] == n % base
  {
  }

  lemma {:induction false} DigitsInjective(m: nat, n: nat, base: Radix)
    requires Digits(m, base) == Digits(n, base)
    ensures m == n
    decreases m
  {
    if m >= base && n >= base {
      DigitsFront(m, base);
      DigitsFront(n, base);
      DigitsInjective(m / base, n / base, base);
    }
  }

  /** A number whose digits extend those of `a` by at least one is at least `a` shifted once. */
  lemma {:induction false} ExtensionGrows(n: nat, a: nat, base: Radix, more: seq<nat>)
    requires a > 0 && more != []
    requires Digits(n, base) == Digits(a, base) + more
    ensures n / base >= a
    decreases |more|
  {
    var k := |more| - 1;
    DigitsFront(n, base);
    assert Digits(n / base, base) == Digits(a, base) + more[..k];
    if k == 0 {
      assert Digits(n / base, base) == Digits(a, base);
      DigitsInjective(n / base, a, base);
    } else {
      ExtensionGrows(n / base, a, base, more[..k]);
    }
  }

  /** The digits of n are those of `acc`, read so far (none if it is 0), followed by `ds`. */
  ghost predicate Extends(n: nat, acc: nat, ds: seq<nat>, base: Radix) {
    Digits(n, base) == if acc == 0 then ds else Digits(acc, base) + ds
  }

  lemma ExtendStep(n: nat, acc: nat, ds: seq<nat>, base: Radix)
    requires ds != [] && ds[0] < base && acc * base + ds[0] > 0
    ensures Extends(n, acc, ds, base) <==> Extends(n, acc * base + ds[0], ds[1..], base)
  {
    hide Digits;
    var d, acc' := ds[0], acc * base + ds[0];
    if acc == 0 {
      DigitsSmall(d, base);
      assert Digits(acc', base) + ds[1..] == ds;
    } else {
      DigitsSnoc(acc, base, d);
      assert Digits(acc', base) + ds[1..] == Digits(acc, base) + ds;
    }
  }

  // ---------- Base-128 integers: high tag numbers and object identifier arcs ----------

  /** Sets the continuation bit on every digit but the last. */
  function Continued(ds: seq<nat>): (b: Bytes)
    requires ds != [] && forall i :: 0 <= i < |ds| ==> ds[i] < 128
    ensures |b| == |ds|
  {
    if |ds| == 1 then ds else [ds[0] + 128] + Continued(ds[1..])
  }

  function PrintBase128(n: nat): (b: Bytes)
    ensures b != []
  {
    Continued(Digits(n, 128))
  }

  /** The decoder's loop: `shifted` octets already read, their value in `acc`. */
  function ParseBase128From(b: Bytes, shifted: nat, acc: nat): Option<(nat, Bytes)>
    decreases |b|
  {
    if b == [] || shifted == 5 || (shifted == 0 && b[0] == 0x80) then None
    else
      var acc' := acc * 128 + b[0] % 128;
      if b[0] >= 128 then ParseBase128From(b[1..], shifted + 1, acc')
      else if acc' > MAX_INT32 then None
      else Some((acc', b[1..]))
  }

  function ParseBase128(b: Bytes): Option<(nat, Bytes)> {
    ParseBase128From(b, 0, 0)
  }

  lemma DigitsBelowInt32(n: nat)
    requires n <= MAX_INT32
    ensures |Digits(n, 128)| <= 5
  {
    if n >= 128 {
      DigitsFront(n, 128);
      var n1 := n / 128;
      if n1 >= 128 {
        DigitsFront(n1, 128);
        var n2 := n1 / 128;
        if n2 >= 128 {
          DigitsFront(n2, 128);
          assert |Digits(n2 / 128, 128)| <= 2;
        }
      }
    }
  }

  lemma {:induction false} ParseBase128Reads(b: Bytes, shifted: nat, acc: nat, n: nat, rest: Bytes)
      returns (ds: seq<nat>)
    requires shifted == 0 <==> acc == 0
    requires ParseBase128From(b, shifted, acc) == Some((n, rest))
    ensures n <= MAX_INT32
    ensures ds != [] && forall i :: 0 <= i < |ds| ==> ds[i] < 128
    ensures Extends(n, acc, ds, 128) && b == Continued(ds) + rest
    decreases |b|
  {
    hide Digits;
    var d := b[0] % 128;
    if b[0] >= 128 {
      var tail := ParseBase128Reads(b[1..], shifted + 1, acc * 128 + d, n, rest);
      ds := [d] + tail;
      assert ds[1..] == tail;
      assert b == [b[0]] + b[1..];
      ExtendStep(n, acc, ds, 128);
    } else {
      ds := [d];
      assert b == [d] + rest;
      if n > 0 {
        assert Digits(n, 128) + [] == Digits(n, 128) && ds[1..] == [];
        ExtendStep(n, acc, ds, 128);
      } else {
        DigitsSmall(n, 128);
      }
    }
  }

  lemma {:induction false} ParseBase128Prints(n: nat, ds: seq<nat>, shifted: nat, acc: nat, rest: Bytes)
    requires n <= MAX_INT32 && ds != [] && forall i :: 0 <= i < |ds| ==> ds[i] < 128
    requires shifted == 0 <==> acc == 0
    requires shifted + |ds| <= 5 && (acc == 0 && |ds| > 1 ==> ds[0] > 0)
    requires Extends(n, acc, ds, 128)
    ensures ParseBase128From(Continued(ds) + rest, shifted, acc) == Some((n, rest))
    decreases |ds|
  {
    hide Digits;
    var b := Continued(ds) + rest;
    var acc' := acc * 128 + ds[0];
    if |ds| == 1 {
      assert b[1..] == rest;
      if acc' > 0 {
        ExtendStep(n, acc, ds, 128);
        assert Digits(acc', 128) + ds[1..] == Digits(acc', 128);
      }
      DigitsInjective(n, acc', 128);
    } else {
      assert b[1..] == Continued(ds[1..]) + rest;
      ExtendStep(n, acc, ds, 128);
      ParseBase128Prints(n, ds[1..], shifted + 1, acc', rest);
    }
  }

  /** Reading a base-128 integer succeeds on exactly the minimal encodings of values that fit an int32. */
  lemma Base128Exact(b: Bytes, n: nat, rest: Bytes)
    ensures ParseBase128(b) == Some((n, rest)) <==> n <= MAX_INT32 && b == PrintBase128(n) + rest
  {
    hide Digits;
    if ParseBase128(b) == Some((n, rest)) {
      var _ := ParseBase128Reads(b, 0, 0, n, rest);
    }
    if n <= MAX_INT32 && b == PrintBase128(n) + rest {
      DigitsBelowInt32(n);
      if n == 0 { DigitsSmall(n, 128); }
      ParseBase128Prints(n, Digits(n, 128), 0, 0, rest);
    }
  }

  // ---------- Lengths ----------

  function PrintLength(n: nat): (b: Bytes)
    requires n <= MAX_INT32
  {
    if n < 128 then [n] else
      LengthDigits(n);
      [0x80 + |Digits(n, 256)|] + Digits(n, 256)
  }

  lemma LengthDigits(n: nat)
    requires n <= MAX_INT32
    ensures |Digits(n, 256)| <= 4
  {
    if n >= 256 {
      DigitsFront(n, 256);
      if n / 256 >= 256 {
        DigitsFront(n / 256, 256);
        assert |Digits(n / 256 / 256, 256)| <= 2;
      }
    }
  }

  /** The decoder's loop over the `k` octets of a long-form length. */
  function ParseLengthOctets(b: Bytes, k: nat, acc: nat): Option<(nat, Bytes)> {
    if k == 0 then Some((acc, b))
    else if b == [] || acc >= LENGTH_SHIFT_LIMIT || acc * 256 + b[0] == 0 then None
    else ParseLengthOctets(b[1..], k - 1, acc * 256 + b[0])
  }

  function ParseLength(b: Bytes): Option<(nat, Bytes)> {
    if b == [] then None
    else if b[0] < 128 then Some((b[0], b[1..]))
    else if b[0] == 128 then None
    else
      match ParseLengthOctets(b[1..], b[0] - 128, 0)
      case None => None
      case Some((n, rest)) => if n < 128 then None else Some((n, rest))
  }

  lemma {:induction false} LengthOctetsRead(b: Bytes, k: nat, acc: nat, n: nat, rest: Bytes)
    requires acc <= MAX_INT32 && (acc == 0 ==> k > 0)
    requires ParseLengthOctets(b, k, acc) == Some((n, rest))
    ensures 0 < n <= MAX_INT32 && k <= |b| && rest == b[k..]
    ensures Extends(n, acc, b[..k], 256)
    decreases k
  {
    hide Digits;
    if k > 0 {
      LengthOctetsRead(b[1..], k - 1, acc * 256 + b[0], n, rest);
      assert b[..k][1..] == b[1..][..k - 1];
      ExtendStep(n, acc, b[..k], 256);
    } else {
      assert Digits(n, 256) + b[..k] == Digits(n, 256);
    }
  }

  lemma {:induction false} LengthOctetsPrint(ds: Bytes, acc: nat, n: nat, rest: Bytes)
    requires 0 < n <= MAX_INT32
    requires Extends(n, acc, ds, 256)
    ensures ParseLengthOctets(ds + rest, |ds|, acc) == Some((n, rest))
    decreases |ds|
  {
    hide Digits;
    if ds == [] {
      assert ds + rest == rest;
      assert Digits(acc, 256) + ds == Digits(acc, 256);
      DigitsInjective(n, acc, 256);
    } else {
      assert (ds + rest)[1..] == ds[1..] + rest;
      if acc > 0 { ExtensionGrows(n, acc, 256, ds); }
      ExtendStep(n, acc, ds, 256);
      LengthOctetsPrint(ds[1..], acc * 256 + ds[0], n, rest);
    }
  }

  lemma LengthReads(b: Bytes, n: nat, rest: Bytes)
    requires ParseLength(b) == Some((n, rest))
    ensures n <= MAX_INT32 && b == PrintLength(n) + rest
  {
    hide Digits;
    assert b == [b[0]] + b[1..];
    if b[0] >= 128 {
      var k := b[0] - 128;
      LengthOctetsRead(b[1..], k, 0, n, rest);
      LengthDigits(n);
      assert b[1..] == Digits(n, 256) + rest;
    }
  }

  lemma LengthPrints(n: nat, rest: Bytes)
    requires n <= MAX_INT32
    ensures ParseLength(PrintLength(n) + rest) == Some((n, rest))
  {
    hide Digits;
    var b := PrintLength(n) + rest;
    if n < 128 {
      assert b[1..] == rest;
    } else {
      LengthDigits(n);
      assert b[1..] == Digits(n, 256) + rest;
      LengthOctetsPrint(Digits(n, 256), 0, n, rest);
    }
  }

  // ---------- Elements ----------

  /** asn1.RawValue: class, constructed bit, tag number and contents. */
  datatype Element = Element(cls: nat, compound: bool, tag: nat, contents: Bytes)

  /** What the decoder can represent. */
  predicate Representable(e: Element) {
    e.cls < 4 && e.tag <= MAX_INT32 && |e.contents| <= MAX_INT32
  }

  function PrintTag(cls: nat, compound: bool, tag: nat): (b: Bytes)
    requires cls < 4
    ensures b != []
  {
    var lead := cls * 64 + if compound then 32 else 0;
    if tag < 31 then [lead + tag] else [lead + 31] + PrintBase128(tag)
  }

  function ParseTag(b: Bytes): Option<((nat, bool, nat), Bytes)> {
    if b == [] then None
    else
      var cls := b[0] / 64;
      var compound := b[0] / 32 % 2 == 1;
      var low := b[0] % 32;
      if low < 31 then Some(((cls, compound, low), b[1..]))
      else
        match ParseBase128(b[1..])
        case None => None
        case Some((tag, rest)) => if tag < 31 then None else Some(((cls, compound, tag), rest))
  }

  lemma TagReads(b: Bytes, cls: nat, compound: bool, tag: nat, rest: Bytes)
    requires ParseTag(b) == Some(((cls, compound, tag), rest))
    ensures cls < 4 && tag <= MAX_INT32 && b == PrintTag(cls, compound, tag) + rest
  {
    hide ParseBase128, PrintBase128;
    assert b == [b[0]] + b[1..];
    Base128Exact(b[1..], tag, rest);
  }

  lemma TagPrints(cls: nat, compound: bool, tag: nat, rest: Bytes)
    requires cls < 4 && tag <= MAX_INT32
    ensures ParseTag(PrintTag(cls, compound, tag) + rest) == Some(((cls, compound, tag), rest))
  {
    hide ParseBase128, PrintBase128;
    var b := PrintTag(cls, compound, tag) + rest;
    var lead := cls * 64 + if compound then 32 else 0;
    if tag < 31 {
      assert b[0] == lead + tag && b[1..] == rest;
    } else {
      assert b[0] == lead + 31 && b[1..] == PrintBase128(tag) + rest;
      Base128Exact(b[1..], tag, rest);
    }
  }

  function PrintElement(e: Element): (b: Bytes)
    requires Representable(e)
    ensures b != []
  {
    PrintTag(e.cls, e.compound, e.tag) + PrintLength(|e.contents|) + e.contents
  }

  /** asn1.Unmarshal into a RawValue: the first element and the bytes after it. */
  function ParseElement(b: Bytes): (r: Option<(Element, Bytes)>) {
    match ParseTag(b)
    case None => None
    case Some(((cls, compound, tag), afterTag)) =>
      match ParseLength(afterTag)
      case None => None
      case Some((n, body)) =>
        if n > |body| then None else Some((Element(cls, compound, tag, body[..n]), body[n..]))
  }

  lemma ElementReads(b: Bytes, e: Element, rest: Bytes)
    requires ParseElement(b) == Some((e, rest))
    ensures Representable(e) && b == PrintElement(e) + rest
  {
    hide ParseTag, PrintTag, ParseLength, PrintLength;
    var afterTag := ParseTag(b).value.1;
    var body := ParseLength(afterTag).value.1;
    TagReads(b, e.cls, e.compound, e.tag, afterTag);
    LengthReads(afterTag, |e.contents|, body);
    assert body == e.contents + rest;
  }

  lemma ElementPrints(e: Element, rest: Bytes)
    requires Representable(e)
    ensures ParseElement(PrintElement(e) + rest) == Some((e, rest))
  {
    hide ParseTag, PrintTag, ParseLength, PrintLength;
    var body := e.contents + rest;
    var afterTag := PrintLength(|e.contents|) + body;
    assert PrintElement(e) + rest == PrintTag(e.cls, e.compound, e.tag) + afterTag;
    TagPrints(e.cls, e.compound, e.tag, afterTag);
    LengthPrints(|e.contents|, body);
    assert body[..|e.contents|] == e.contents && body[|e.contents|..] == rest;
  }

  /** The decoder accepts exactly one spelling of each representable element, and reads it back. */
  lemma ElementExact(b: Bytes, e: Element, rest: Bytes)
    ensures ParseElement(b) == Some((e, rest)) <==> Representable(e) && b == PrintElement(e) + rest
  {
    hide ParseElement, PrintElement;
    if ParseElement(b) == Some((e, rest)) {
      ElementReads(b, e, rest);
    }
    if Representable(e) {
      ElementPrints(e, rest);
    }
  }

  /** Every successful read consumes at least one octet. */
  lemma ElementProgress(b: Bytes)
    requires ParseElement(b).Some?
    ensures |ParseElement(b).value.1| < |b|
    ensures Representable(ParseElement(b).value.0)
  {
    hide ParseElement, PrintElement;
    var (e, rest) := ParseElement(b).value;
    ElementExact(b, e, rest);
  }

  function PrintAll(es: seq<Element>): Bytes
    requires forall i :: 0 <= i < |es| ==> Representable(es[i])
  {
    if es == [] then [] else PrintElement(es[0]) + PrintAll(es[1..])
  }

  /** A complete split of `b` into elements, if there is one. */
  function ParseAll(b: Bytes): Option<seq<Element>>
    decreases |b|
  {
    if b == [] then Some([])
    else
      match ParseElement(b)
      case None => None
      case Some((e, rest)) =>
        ElementProgress(b);
        match ParseAll(rest)
        case None => None
        case Some(es) => Some([e] + es)
  }

  lemma {:induction false} ParseAllPrints(es: seq<Element>)
    requires forall i :: 0 <= i < |es| ==> Representable(es[i])
    ensures ParseAll(PrintAll(es)) == Some(es)
    decreases |es|
  {
    hide ParseElement, PrintElement;
    if es != [] {
      ElementExact(PrintAll(es), es[0], PrintAll(es[1..]));
      ParseAllPrints(es[1..]);
      assert es == [es[0]] + es[1..];
    }
  }

  lemma {:induction false} PrintAllParses(b: Bytes, es: seq<Element>)
    requires ParseAll(b) == Some(es)
    ensures forall i :: 0 <= i < |es| ==> Representable(es[i])
    ensures b == PrintAll(es)
    decreases |b|
  {
    hide ParseElement, PrintElement;
    if b != [] {
      var (e, rest) := ParseElement(b).value;
      ElementProgress(b);
      ElementExact(b, e, rest);
      assert es[1..] == ParseAll(rest).value;
      PrintAllParses(rest, es[1..]);
    }
  }

  /** A byte string splits into the elements `es` exactly when it is their concatenated encodings. */
  lemma ElementsExact(b: Bytes, es: seq<Element>)
    ensures ParseAll(b) == Some(es)
       <==> (forall i :: 0 <= i < |es| ==> Representable(es[i])) && b == PrintAll(es)
  {
    if ParseAll(b) == Some(es) {
      PrintAllParses(b, es);
    }
    if (forall i :: 0 <= i < |es| ==> Representable(es[i])) && b == PrintAll(es) {
      ParseAllPrints(es);
    }
  }

  // ---------- Examples of the standard ----------

  /** Sections 8.1.3.4 and 8.1.3.5 of ITU-T X.690: the lengths 38 and 201, and one of two octets. */
  lemma LengthExamples()
    ensures PrintLength(38) == [38]
    ensures PrintLength(201) == [0x81, 0xc9]
    ensures PrintLength(1000) == [0x82, 0x03, 0xe8]
  {
    assert Digits(201, 256) == [201];
    assert Digits(1000, 256) == Digits(3, 256) + [232] == [3, 232];
  }

  /** Section 8.1.2: class in bits 8 and 7, constructed in bit 6, the tag number below, or in octets of its own. */
  lemma TagExamples()
    ensures PrintTag(CLASS_UNIVERSAL, true, TAG_SEQUENCE) == [0x30]
    ensures PrintTag(CLASS_UNIVERSAL, false, TAG_OID) == [0x06]
    ensures PrintTag(CLASS_CONTEXT, false, 6) == [0x86]
    ensures PrintTag(1, true, 200) == [0x7f, 0x81, 0x48]
  {
    assert Digits(200, 128) == Digits(1, 128) + [72] == [1, 72];
    assert [1, 72][1..] == [72] && Continued([1, 72]) == [129] + Continued([72]) == [129, 72];
  }
}
