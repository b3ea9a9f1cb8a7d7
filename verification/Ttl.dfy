// The remaining-lifetime test of `decide`: instants are nanoseconds, a
// difference of instants saturates to a signed 64-bit duration, and the
// fraction is taken exactly.
module Ttl {

  const MAX_DURATION := 0x7FFF_FFFF_FFFF_FFFF
  const MIN_DURATION := -0x8000_0000_0000_0000

  // The difference of two instants as a 64-bit duration.
  function Sub(a: int, b: int): (d: int)
    ensures MIN_DURATION <= d <= MAX_DURATION
  {
    if a - b > MAX_DURATION then MAX_DURATION
    else if a - b < MIN_DURATION then MIN_DURATION
    else a - b
  }

  // No time left, or none to begin with.
  predicate Expired(notBefore: int, notAfter: int, now: int) {
    Sub(notAfter, notBefore) <= 0 || Sub(notAfter, now) <= 0
  }

  // The certificate is due for a fetch.
  predicate Due(notBefore: int, notAfter: int, now: int, threshold: real) {
    || Expired(notBefore, notAfter, now)
    || (Sub(notAfter, now) as real) / (Sub(notAfter, notBefore) as real) <= threshold
  }

  // The same test on unbounded durations, without a division.
  predicate DueExactly(notBefore: int, notAfter: int, now: int, threshold: real) {
    var total := notAfter - notBefore;
    var remaining := notAfter - now;
    total <= 0 || remaining <= 0 || remaining as real <= threshold * (total as real)
  }

  lemma CrossMultiply(a: int, b: int, t: real)
    requires b > 0
    ensures (a as real) / (b as real) <= t <==> a as real <= t * (b as real)
  {
    var q := (a as real) / (b as real);
    assert a as real == q * (b as real);
    if q <= t {
      assert (t - q) * (b as real) >= 0.0;
    } else {
      assert (q - t) * (b as real) > 0.0;
    }
  }

  lemma Scale(t: real, a: int, b: int)
    requires t >= 0.0 && a <= b
    ensures t * (a as real) <= t * (b as real)
  {
    assert t * ((b - a) as real) >= 0.0;
  }

  // With both durations in range, up to 2^63 nanoseconds, the saturated test is
  // the exact one.
  lemma DueWhenFits(notBefore: int, notAfter: int, now: int, threshold: real)
    requires -0x8000_0000_0000_0000 <= notAfter - notBefore < 0x8000_0000_0000_0000
    requires -0x8000_0000_0000_0000 <= notAfter - now < 0x8000_0000_0000_0000
    ensures Due(notBefore, notAfter, now, threshold) <==> DueExactly(notBefore, notAfter, now, threshold)
  {
    if notAfter - notBefore > 0 {
      CrossMultiply(notAfter - now, notAfter - notBefore, threshold);
    }
  }

  // Once due, a certificate stays due.
  lemma DueMonotone(notBefore: int, notAfter: int, now: int, later: int, threshold: real)
    requires now <= later
    requires Due(notBefore, notAfter, now, threshold)
    ensures Due(notBefore, notAfter, later, threshold)
  {
    var total := Sub(notAfter, notBefore);
    if total > 0 {
      CrossMultiply(Sub(notAfter, now), total, threshold);
      CrossMultiply(Sub(notAfter, later), total, threshold);
    }
  }

  // Saturation never fetches early.
  lemma DueImpliesExactly(notBefore: int, notAfter: int, now: int, threshold: real)
    requires 0.0 < threshold < 1.0
    requires Due(notBefore, notAfter, now, threshold)
    ensures DueExactly(notBefore, notAfter, now, threshold)
  {
    var total := Sub(notAfter, notBefore);
    if total > 0 && notAfter - now > 0 {
      CrossMultiply(Sub(notAfter, now), total, threshold);
      Scale(threshold, total, notAfter - notBefore);
      Scale(threshold, total, MAX_DURATION);
      assert threshold * (MAX_DURATION as real) < MAX_DURATION as real;
    }
  }

  // For a lifetime of 2^63-1 ns or more the fetch fires exactly throughout the
  // last threshold * (2^63-1) ns before expiry and ever after.
  lemma DueWhenLong(notBefore: int, notAfter: int, now: int, threshold: real)
    requires 0.0 < threshold < 1.0
    requires notAfter - notBefore >= 0x7FFF_FFFF_FFFF_FFFF
    ensures Due(notBefore, notAfter, now, threshold)
            <==> (notAfter - now) as real <= threshold * (0x7FFF_FFFF_FFFF_FFFF as real)
  {
    CrossMultiply(Sub(notAfter, now), MAX_DURATION, threshold);
    assert threshold * (MAX_DURATION as real) < MAX_DURATION as real;
    assert 0.0 <= threshold * (MAX_DURATION as real);
  }

  // What a skip guarantees about the time left.
  lemma NotDueLeaves(notBefore: int, notAfter: int, now: int, threshold: real)
    requires 0.0 < threshold
    requires !Due(notBefore, notAfter, now, threshold)
    ensures Sub(notAfter, notBefore) > 0
    ensures (notAfter - now) as real > threshold * (Sub(notAfter, notBefore) as real)
  {
    CrossMultiply(Sub(notAfter, now), Sub(notAfter, notBefore), threshold);
  }
}
