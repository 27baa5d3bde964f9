/**
 * The sliding-window rate limiter of the data plane, in 64-bit arithmetic, and what it promises
 * over any sequence of packets: a bound on what it admits, and no starvation.
 */
module RateLimiter {
  import opened Base

  const TWO64 := 0x1_0000_0000_0000_0000
  const WINDOW := 5_000_000
  const NSEC := 1_000_000_000

  /** Transmission time of a packet; rate 0 means unlimited and is tested before. */
  function TxTime(size: nat, rate: nat): nat
    requires rate > 0
  {
    size * 8 * (NSEC / rate) % TWO64
  }

  /** The window start after a packet of transmission time tx, and whether the packet passes. */
  function Step(start: nat, tx: nat, now: nat): (nat, bool) {
    if (start + tx) % TWO64 > now then (start, false)
    else if (start + WINDOW) % TWO64 < now then ((now - WINDOW + tx) % TWO64, true)
    else ((start + tx) % TWO64, true)
  }

  function Limit(start: nat, size: nat, rate: nat, now: nat): (nat, bool) {
    if rate == 0 then (start, true) else Step(start, TxTime(size, rate), now)
  }

  /** One direction of a QER slot: the start field is written by the limiter only. */
  class Window {
    var start: nat

    constructor ()
      ensures start == 0
    {
      start := 0;
    }

    /** limit_rate_sliding_window; now is the clock reading. */
    method Admit(size: nat, rate: nat, now: nat) returns (pass: bool)
      modifies this
      ensures (start, pass) == Limit(old(start), size, rate, now)
    {
      if rate == 0 {
        return true;
      }
      var tx := size * 8 * (NSEC / rate) % TWO64;
      if (start + tx) % TWO64 > now {
        return false;
      }
      if (start + WINDOW) % TWO64 < now {
        start := (now - WINDOW + tx) % TWO64;
        return true;
      }
      start := (start + tx) % TWO64;
      return true;
    }
  }

  // ---------------------------------------------------------------- runs

  /** A packet of size bytes arriving at time now. */
  datatype Arrival = Arrival(size: nat, now: nat)

  /** What the limiter sees of it at a given rate. */
  datatype Load = Load(tx: nat, now: nat)

  const MAXTX := 65535 * 8 * NSEC

  function Loads(run: seq<Arrival>, rate: nat): (l: seq<Load>)
    requires rate > 0
    ensures |l| == |run| && forall i :: 0 <= i < |run| ==> l[i] == Load(TxTime(run[i].size, rate), run[i].now)
  {
    seq(|run|, i requires 0 <= i < |run| => Load(TxTime(run[i].size, rate), run[i].now))
  }

  /** Nondecreasing clock below 2^62 ns (146 years), packets up to 65535 bytes. */
  ghost predicate Realistic(run: seq<Arrival>) {
    && (forall i :: 0 <= i < |run| ==> run[i].size <= 65535 && run[i].now < 0x4000_0000_0000_0000)
    && (forall i, j :: 0 <= i <= j < |run| ==> run[i].now <= run[j].now)
  }

  ghost predicate RealisticLoads(l: seq<Load>) {
    && (forall i :: 0 <= i < |l| ==> l[i].tx <= MAXTX && l[i].now < 0x4000_0000_0000_0000)
    && (forall i, j :: 0 <= i <= j < |l| ==> l[i].now <= l[j].now)
  }

  /** The window start before the i-th packet; a new QER starts at 0. */
  function StartAt(l: seq<Load>, i: nat): nat
    requires i <= |l|
  {
    if i == 0 then 0 else Step(StartAt(l, i - 1), l[i - 1].tx, l[i - 1].now).0
  }

  predicate Admitted(l: seq<Load>, i: nat)
    requires i < |l|
  {
    Step(StartAt(l, i), l[i].tx, l[i].now).1
  }

  function Max(a: int, b: int): int { if a >= b then a else b }

  /** The transmission time admitted among packets i .. j-1. */
  function AdmittedTime(l: seq<Load>, i: nat, j: nat): nat
    requires i <= j <= |l|
  {
    if i == j then 0 else AdmittedTime(l, i, j - 1) + if Admitted(l, j - 1) then l[j - 1].tx else 0
  }

  /** The bits admitted among packets i .. j-1. */
  function AdmittedBits(run: seq<Arrival>, rate: nat, i: nat, j: nat): nat
    requires rate > 0 && i <= j <= |run|
  {
    if i == j then 0
    else AdmittedBits(run, rate, i, j - 1) + if Admitted(Loads(run, rate), j - 1) then run[j - 1].size * 8 else 0
  }

  // ---------------------------------------------------------------- no wrap-around

  lemma Product(a: nat, b: nat, c: nat, d: nat)
    requires a <= b && c <= d
    ensures a * c <= b * d
  {
    assert a * c <= b * c;
    assert b * c <= b * d;
  }

  lemma TxTimeExact(size: nat, rate: nat)
    requires rate > 0 && size <= 65535
    ensures TxTime(size, rate) == size * 8 * (NSEC / rate) && TxTime(size, rate) <= MAXTX
  {
    Product(size * 8, 65535 * 8, NSEC / rate, NSEC);
  }

  lemma LoadsAreRealistic(run: seq<Arrival>, rate: nat)
    requires rate > 0 && Realistic(run)
    ensures RealisticLoads(Loads(run, rate))
  {
    forall i | 0 <= i < |run| ensures TxTime(run[i].size, rate) <= MAXTX { TxTimeExact(run[i].size, rate); }
  }

  /** With realistic packets the three outcomes are those of plain integer arithmetic. */
  lemma StepIsPlain(start: nat, tx: nat, now: nat)
    requires tx <= MAXTX && now < 0x4000_0000_0000_0000 && start <= now + MAXTX
    ensures Step(start, tx, now) ==
      if start + tx > now then (start, false)
      else if start + WINDOW < now then (now - WINDOW + tx, true)
      else (start + tx, true)
    ensures Step(start, tx, now).0 <= now + MAXTX
  {
  }

  lemma {:induction false} StartBounded(l: seq<Load>, i: nat)
    requires RealisticLoads(l) && i < |l|
    ensures StartAt(l, i) <= l[i].now + MAXTX
  {
    if i > 0 {
      StartBounded(l, i - 1);
      StepIsPlain(StartAt(l, i - 1), l[i - 1].tx, l[i - 1].now);
    }
  }

  /** The step at packet i in integer arithmetic. */
  lemma StepExact(l: seq<Load>, i: nat)
    requires RealisticLoads(l) && i < |l|
    ensures var s, tx, now := StartAt(l, i), l[i].tx, l[i].now;
      && (Admitted(l, i) <==> s + tx <= now)
      && StartAt(l, i + 1) == if s + tx > now then s else if s + WINDOW < now then now - WINDOW + tx else s + tx
  {
    StartBounded(l, i);
    StepIsPlain(StartAt(l, i), l[i].tx, l[i].now);
  }

  // ---------------------------------------------------------------- the bound

  /** The window start moves forward by at least what is admitted. */
  lemma {:induction false} StartAdvances(l: seq<Load>, i: nat, j: nat)
    requires RealisticLoads(l) && i <= j <= |l|
    ensures StartAt(l, i) + AdmittedTime(l, i, j) <= StartAt(l, j)
    decreases j
  {
    if i < j {
      StartAdvances(l, i, j - 1);
      StepExact(l, j - 1);
    }
  }

  lemma {:induction false} AdmittedSplit(l: seq<Load>, i: nat, k: nat, j: nat)
    requires i <= k <= j <= |l|
    ensures AdmittedTime(l, i, j) == AdmittedTime(l, i, k) + AdmittedTime(l, k, j)
    decreases j
  {
    if k < j { AdmittedSplit(l, i, k, j - 1); }
  }

  /** Where an admitted packet leaves the window start. */
  lemma AfterAdmitted(l: seq<Load>, i: nat)
    requires RealisticLoads(l) && i < |l| && Admitted(l, i)
    ensures l[i].now - WINDOW + l[i].tx <= StartAt(l, i + 1) <= l[i].now - WINDOW + Max(WINDOW, l[i].tx)
    ensures AdmittedTime(l, i, i + 1) == l[i].tx
  {
    StepExact(l, i);
    assert AdmittedTime(l, i, i) == 0;
  }

  /** The time from packet i to packet j plus one window, or plus packet j's own time if longer. */
  function Span(l: seq<Load>, i: nat, j: nat): int
    requires i <= j < |l|
  {
    l[j].now - l[i].now + Max(WINDOW, l[j].tx)
  }

  /**
   * From an admitted packet i to an admitted packet j, both included, the admitted transmission
   * time is at most their span.
   */
  lemma AdmittedTimeBound(l: seq<Load>, i: nat, j: nat)
    requires RealisticLoads(l) && i <= j < |l| && Admitted(l, i) && Admitted(l, j)
    ensures AdmittedTime(l, i, j + 1) <= Span(l, i, j)
  {
    AdmittedSplit(l, i, i + 1, j + 1);
    StartAdvances(l, i + 1, j + 1);
    AfterAdmitted(l, i);
    AfterAdmitted(l, j);
  }

  // ---------------------------------------------------------------- in bits

  lemma Scale(a: nat, b: nat, c: nat)
    requires b <= c
    ensures a * b <= a * c
  {
  }

  lemma Distribute(a: nat, b: nat, c: nat)
    ensures a * (b + c) == a * b + a * c
  {
  }

  lemma Regroup(rate: nat, bits: nat, q: nat)
    ensures rate * (bits * q) == bits * (q * rate)
    ensures bits * (2 * (q * rate)) == 2 * (bits * (q * rate))
  {
  }

  /** The integer division loses less than half of 10^9, and nothing when rate divides it. */
  lemma Quotient(rate: nat)
    requires 1 <= rate <= NSEC
    ensures NSEC <= 2 * (NSEC / rate * rate)
    ensures NSEC % rate == 0 ==> NSEC == NSEC / rate * rate
  {
    var q := NSEC / rate;
    assert NSEC == q * rate + NSEC % rate;
    assert q >= 1;
    Product(1, q, rate, rate);
  }

  /** One packet, in bits. */
  lemma BitsOfTime(size: nat, rate: nat)
    requires 1 <= rate <= NSEC && size <= 65535
    ensures size * 8 * NSEC <= 2 * (rate * TxTime(size, rate))
    ensures NSEC % rate == 0 ==> size * 8 * NSEC == rate * TxTime(size, rate)
  {
    var q, bits := NSEC / rate, size * 8;
    TxTimeExact(size, rate);
    Quotient(rate);
    Regroup(rate, bits, q);
    Scale(bits, NSEC, 2 * (q * rate));
  }

  /** bits fit in span nanoseconds at twice the rate, and at the rate itself if it divides 10^9. */
  ghost predicate FitsIn(bits: nat, rate: nat, span: int)
    requires rate > 0
  {
    bits * NSEC <= 2 * (rate * span) && (NSEC % rate == 0 ==> bits * NSEC <= rate * span)
  }

  ghost predicate Takes(bits: nat, rate: nat, time: nat)
    requires rate > 0
  {
    bits * NSEC <= 2 * (rate * time) && (NSEC % rate == 0 ==> bits * NSEC == rate * time)
  }

  lemma TakesFits(bits: nat, rate: nat, time: nat, span: int)
    requires rate > 0 && time <= span && Takes(bits, rate, time)
    ensures FitsIn(bits, rate, span)
  {
    Scale(rate, time, span);
  }

  lemma {:induction false} BitsOfAdmitted(run: seq<Arrival>, rate: nat, i: nat, j: nat)
    requires 1 <= rate <= NSEC && Realistic(run) && i <= j <= |run|
    ensures Takes(AdmittedBits(run, rate, i, j), rate, AdmittedTime(Loads(run, rate), i, j))
    decreases j
  {
    if i < j {
      BitsOfAdmitted(run, rate, i, j - 1);
      BitsOfTime(run[j - 1].size, rate);
      Distribute(rate, AdmittedTime(Loads(run, rate), i, j - 1), TxTime(run[j - 1].size, rate));
    }
  }

  lemma SpanBounds(run: seq<Arrival>, rate: nat, i: nat, j: nat)
    requires 1 <= rate && Realistic(run) && i <= j < |run|
    requires Admitted(Loads(run, rate), i) && Admitted(Loads(run, rate), j)
    ensures AdmittedTime(Loads(run, rate), i, j + 1) <= Span(Loads(run, rate), i, j)
  {
    LoadsAreRealistic(run, rate);
    AdmittedTimeBound(Loads(run, rate), i, j);
  }

  lemma AdmittedBitsFit(run: seq<Arrival>, rate: nat, i: nat, j: nat, span: int)
    requires 1 <= rate <= NSEC && Realistic(run) && i <= j <= |run| && AdmittedTime(Loads(run, rate), i, j) <= span
    ensures FitsIn(AdmittedBits(run, rate, i, j), rate, span)
  {
    BitsOfAdmitted(run, rate, i, j);
    TakesFits(AdmittedBits(run, rate, i, j), rate, AdmittedTime(Loads(run, rate), i, j), span);
  }

  /**
   * In bits: at most twice the configured rate over the span, and at most once that when the rate
   * divides 10^9.
   */
  lemma AdmittedBitsBound(run: seq<Arrival>, rate: nat, i: nat, j: nat)
    requires 1 <= rate <= NSEC && Realistic(run) && i <= j < |run|
    requires Admitted(Loads(run, rate), i) && Admitted(Loads(run, rate), j)
    ensures FitsIn(AdmittedBits(run, rate, i, j + 1), rate, Span(Loads(run, rate), i, j))
  {
    SpanBounds(run, rate, i, j);
    AdmittedBitsFit(run, rate, i, j + 1, Span(Loads(run, rate), i, j));
  }

  /** Packets that take no time are all admitted. */
  lemma {:induction false} TimelessPass(l: seq<Load>, i: nat)
    requires RealisticLoads(l) && i < |l| && forall k :: 0 <= k < |l| ==> l[k].tx == 0
    ensures Admitted(l, i) && StartAt(l, i) <= l[i].now
  {
    StepExact(l, i);
    if i > 0 {
      TimelessPass(l, i - 1);
      StepExact(l, i - 1);
    }
  }

  /** Above 10^9 bit/s the division yields 0 and every packet passes, however many there are. */
  lemma FastRatesPass(run: seq<Arrival>, rate: nat, i: nat)
    requires rate > NSEC && Realistic(run) && i < |run|
    ensures Admitted(Loads(run, rate), i)
  {
    LoadsAreRealistic(run, rate);
    assert NSEC / rate == 0;
    TimelessPass(Loads(run, rate), i);
  }

  /** The start field before the i-th packet at a stored rate, 0 included; a new QER starts at 0. */
  function WindowAt(run: seq<Arrival>, rate: nat, i: nat): nat
    requires i <= |run|
  {
    if i == 0 then 0 else Limit(WindowAt(run, rate, i - 1), run[i - 1].size, rate, run[i - 1].now).0
  }

  predicate Passes(run: seq<Arrival>, rate: nat, i: nat)
    requires i < |run|
  {
    Limit(WindowAt(run, rate, i), run[i].size, rate, run[i].now).1
  }

  lemma {:induction false} WindowIsStart(run: seq<Arrival>, rate: nat, i: nat)
    requires rate > 0 && i <= |run|
    ensures WindowAt(run, rate, i) == StartAt(Loads(run, rate), i)
    ensures i < |run| ==> (Passes(run, rate, i) <==> Admitted(Loads(run, rate), i))
  {
    if i == 0 {
    } else {
      WindowIsStart(run, rate, i - 1);
    }
  }

  /** Whatever packets arrive, none is dropped. */
  ghost predicate NeverDrops(rate: nat) {
    forall run, i :: Realistic(run) && 0 <= i < |run| ==> Passes(run, rate, i)
  }

  /** A stored rate does not limit at all exactly when it is 0 or above 10^9 bit/s. */
  lemma FastRatesAreUnlimited(rate: nat)
    ensures NeverDrops(rate) <==> rate == 0 || rate > NSEC
  {
    if rate > NSEC {
      forall run, i | Realistic(run) && 0 <= i < |run| ensures Passes(run, rate, i) {
        FastRatesPass(run, rate, i);
        WindowIsStart(run, rate, i);
      }
    } else if rate > 0 {
      var run := [Arrival(1, 0)];
      assert Realistic(run) && !Passes(run, rate, 0);
    }
  }

  // ---------------------------------------------------------------- no starvation

  /** Packet r was admitted and moved the window forward to its own time. */
  predicate Resets(l: seq<Load>, r: nat)
    requires r < |l|
  {
    Admitted(l, r) && StartAt(l, r) + WINDOW < l[r].now
  }

  /** A packet that does not reset the window moves its start by what it is admitted. */
  lemma WithoutReset(l: seq<Load>, j: nat)
    requires RealisticLoads(l) && j < |l| && !Resets(l, j)
    ensures StartAt(l, j + 1) == StartAt(l, j) + AdmittedTime(l, j, j + 1)
  {
    StepExact(l, j);
    assert AdmittedTime(l, j, j) == 0;
  }

  lemma AtReset(l: seq<Load>, r: nat)
    requires RealisticLoads(l) && r < |l| && Resets(l, r)
    ensures StartAt(l, r + 1) == l[r].now - WINDOW + AdmittedTime(l, r, r + 1)
  {
    StepExact(l, r);
    assert AdmittedTime(l, r, r) == 0;
  }

  /** Since a reset at r, the start field is exactly its base plus what was admitted. */
  lemma {:induction false} StartSinceReset(l: seq<Load>, r: nat, j: nat)
    requires RealisticLoads(l) && r < j <= |l| && Resets(l, r)
    requires forall k :: r < k < j ==> !Resets(l, k)
    ensures StartAt(l, j) == l[r].now - WINDOW + AdmittedTime(l, r, j)
    decreases j
  {
    if r + 1 == j {
      AtReset(l, r);
    } else {
      StartSinceReset(l, r, j - 1);
      WithoutReset(l, j - 1);
      AdmittedSplit(l, r, j - 1, j);
    }
  }

  /**
   * A packet is dropped exactly when the time admitted since the last reset, the resetting packet
   * included, plus its own exceeds the time since the reset plus one window.
   */
  lemma DroppedIff(l: seq<Load>, r: nat, j: nat)
    requires RealisticLoads(l) && r < j < |l| && Resets(l, r)
    requires forall k :: r < k < j ==> !Resets(l, k)
    ensures !Admitted(l, j) <==> AdmittedTime(l, r, j) + l[j].tx > l[j].now - l[r].now + WINDOW
  {
    StartSinceReset(l, r, j);
    StepExact(l, j);
  }
}
