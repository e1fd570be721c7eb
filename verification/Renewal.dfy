/** When a certificate is renewed. Times and durations are nanoseconds. */
module Renewal {
  const MAX_DURATION := 0x7fff_ffff_ffff_ffff
  const MIN_DURATION := -0x8000_0000_0000_0000

  /** The leaf of a PEM chain, as far as renewal reads it; the two ways of not having one differ below. */
  datatype Decoded = NoPem | BadCertificate | Leaf(notBefore: int, notAfter: int)

  /** What calculateNextIssuanceTime does: return a time, return an error, or dereference a nil block. */
  datatype Issuance = At(time: int) | ParseError | NilBlock

  /** time.Time.Sub: the difference, saturated to an int64. */
  function Sub(t: int, u: int): int {
    if t - u > MAX_DURATION then MAX_DURATION else if t - u < MIN_DURATION then MIN_DURATION else t - u
  }

  /** Integer division by three that truncates toward zero. */
  function Third(d: int): int {
    if d >= 0 then d / 3 else -(-d / 3)
  }

  function RenewBefore(notBefore: int, notAfter: int): int {
    Third(Sub(notAfter, notBefore))
  }

  function RenewAt(notBefore: int, notAfter: int): int {
    notAfter - RenewBefore(notBefore, notAfter)
  }

  /** calculateNextIssuanceTime, given what its chain decodes to. */
  function NextIssuance(d: Decoded): Issuance {
    match d
    case NoPem => NilBlock
    case BadCertificate => ParseError
    case Leaf(notBefore, notAfter) => At(RenewAt(notBefore, notAfter))
  }

  /** How long before its expiry a certificate of the given lifetime is renewed: a third, of at most 2^63 - 1. */
  function Margin(life: nat): nat {
    (if life > MAX_DURATION then MAX_DURATION else life) / 3
  }

  /**
   The renewal time computed for a leaf falls within the lifetime, never before two thirds of it, and
   exactly at the ceiling of two thirds unless the lifetime saturates; then it is a third of the longest
   duration before expiry.
   */
  lemma RenewalBound(notBefore: int, notAfter: int)
    requires notBefore <= notAfter
    ensures var issuance, life := NextIssuance(Leaf(notBefore, notAfter)), notAfter - notBefore;
      && issuance.At?
      && var at := issuance.time;
      && notBefore <= at <= notAfter
      && 3 * (at - notBefore) >= 2 * life
      && (at - notBefore == (2 * life + 2) / 3 <==> life <= MAX_DURATION + 1)
      && at == notAfter - Margin(life)
  {
    var life := notAfter - notBefore;
    if life > MAX_DURATION {
      assert MAX_DURATION / 3 == 0x2aaa_aaaa_aaaa_aaaa;
    }
  }

  /** A certificate whose dates are swapped is renewed at its expiry or, from a swap of three on, after it. */
  lemma SwappedDates(notBefore: int, notAfter: int)
    requires notAfter < notBefore
    ensures var issuance, swap := NextIssuance(Leaf(notBefore, notAfter)), notBefore - notAfter;
      && issuance.At?
      && issuance.time >= notAfter
      && (issuance.time > notAfter <==> swap >= 3)
      && (swap <= MAX_DURATION ==> issuance.time == notAfter + swap / 3)
  {
  }

  predicate Covered(certs: seq<Decoded>, x: int) {
    exists i :: 0 <= i < |certs| && certs[i].Leaf? && certs[i].notBefore <= x <= certs[i].notAfter
  }

  /** The certificate starts within a truncated third of the lifetime after its predecessor's renewal time. */
  predicate InTime(before: Decoded, next: Decoded)
    requires before.Leaf? && next.Leaf?
  {
    var issuance := NextIssuance(before);
    issuance.At? && next.notBefore <= issuance.time + RenewBefore(before.notBefore, before.notAfter)
  }

  predicate RenewedInTime(certs: seq<Decoded>) {
    && (forall i :: 0 <= i < |certs| ==> certs[i].Leaf?)
    && forall i :: 1 <= i < |certs| ==> InTime(certs[i - 1], certs[i])
  }

  /** A chain of renewals made in time leaves no instant without a valid certificate. */
  lemma {:induction false} NoGap(certs: seq<Decoded>, x: int)
    requires certs != [] && RenewedInTime(certs)
    requires certs[0].notBefore <= x <= certs[|certs| - 1].notAfter
    ensures Covered(certs, x)
    decreases |certs|
  {
    var last := |certs| - 1;
    if certs[last].notBefore <= x {
    } else {
      var before := certs[..last];
      assert InTime(certs[last - 1], certs[last]);
      assert forall i :: 1 <= i < last ==> InTime(before[i - 1], before[i]);
      NoGap(before, x);
      var i :| 0 <= i < |before| && before[i].notBefore <= x <= before[i].notAfter;
      assert certs[i] == before[i];
    }
  }

  /** For one renewal the bound is exact: starting more than an instant too late leaves one uncovered. */
  lemma LateRenewalGap(c: Decoded, d: Decoded)
    requires c.Leaf? && d.Leaf? && c.notBefore <= c.notAfter < d.notAfter && d.notBefore <= d.notAfter
    ensures (forall x :: c.notBefore <= x <= d.notAfter ==> Covered([c, d], x))
       <==> InTime(c, d) || InTime(c, d.(notBefore := d.notBefore - 1))
  {
    RenewalBound(c.notBefore, c.notAfter);
    if d.notBefore > c.notAfter + 1 {
      assert !Covered([c, d], c.notAfter + 1);
    } else {
      forall x | c.notBefore <= x <= d.notAfter ensures Covered([c, d], x) {
        assert [c, d][0] == c && [c, d][1] == d;
      }
    }
  }
}
