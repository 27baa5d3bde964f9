/**
 * From the maximum bit rate a peer asks for to what the limiter does: the conversion to bits per second
 * is 32-bit arithmetic.
 */
module PeerRates {
  import opened Base
  import opened Rules
  import opened RateLimiter

  /** 125 has an inverse modulo 2^29. */
  lemma OddFactor(r: nat, m: nat)
    requires r < 536870912 && 125 * r == 536870912 * m
    ensures r == 0
  {
    assert r == 536870912 * (115964117 * m - 27 * r);
  }

  lemma ProductWrapsIff(low: nat)
    ensures low * 1000 % 0x1_0000_0000 == 0 <==> low % 536870912 == 0
  {
    var q, r := low / 536870912, low % 536870912;
    assert low * 1000 == 1000 * r + 0x1_0000_0000 * (125 * q);
    SameRemainder(1000 * r, 125 * q);
    if 1000 * r % 0x1_0000_0000 == 0 { OddFactor(r, 1000 * r / 0x1_0000_0000); }
  }

  lemma SameRemainder(a: nat, k: nat)
    ensures (a + 0x1_0000_0000 * k) % 0x1_0000_0000 == a % 0x1_0000_0000
  {
  }

  /** The stored rate is the peer's exactly up to 4294967 kbit/s; above, the multiplication wraps. */
  lemma StoredRateIff(kbps: nat)
    ensures BitRate(kbps) == 1000 * kbps <==> kbps <= 4294967
  {
  }

  /** A stored rate of 0, which means no limit, comes exactly from multiples of 2^29 kbit/s. */
  lemma StoredZeroIff(kbps: nat)
    ensures BitRate(kbps) == 0 <==> kbps % 536870912 == 0
  {
    ProductWrapsIff(kbps % 0x1_0000_0000);
    var low, high := kbps % 0x1_0000_0000, kbps / 0x1_0000_0000;
    assert kbps == low + 536870912 * (8 * high);
  }

  /**
   * A peer's maximum bit rate limits nothing exactly when it is a multiple of 2^29 kbit/s or its stored
   * rate is above 10^9 bit/s; up to 4294967 kbit/s, where nothing wraps, when it is 0 or above 10^6.
   */
  lemma PeerRateUnlimitedIff(kbps: nat)
    ensures NeverDrops(BitRate(kbps)) <==> kbps % 536870912 == 0 || BitRate(kbps) > NSEC
    ensures kbps <= 4294967 ==> (NeverDrops(BitRate(kbps)) <==> kbps == 0 || kbps > 1_000_000)
  {
    StoredRateIff(kbps);
    StoredZeroIff(kbps);
    FastRatesAreUnlimited(BitRate(kbps));
  }

  /** The rate just above wraps to 704 bit/s, and is limited. */
  lemma WrappedRateIsLimited(kbps: nat)
    requires kbps == 4294968
    ensures BitRate(kbps) == 704 && !NeverDrops(BitRate(kbps))
  {
    assert kbps % 0x1_0000_0000 * 1000 == 704 + 0x1_0000_0000;
    FastRatesAreUnlimited(BitRate(kbps));
  }
}
