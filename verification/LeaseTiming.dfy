/** How many failed renewals a lease survives. Time is counted from the moment the renewal ticker
    is created, which is after Acquire has returned. */
module LeaseTiming {

  /** Attempt number k > 0 is the renewal due at k * interval: its caller reads the clock `read`
      later, and its statement takes effect `land` later. Attempt 0 is the Acquire: it has taken
      effect before the ticker is created, and its caller read the clock `read` before that. */
  datatype Attempt = Attempt(read: nat, land: nat, ok: bool)

  /** The clock reading that the row written by attempt `k` starts from. */
  function ReadAt(schedule: seq<Attempt>, interval: nat, k: nat): int
    requires k < |schedule|
  {
    if k == 0 then 0 - schedule[0].read else k * interval + schedule[k].read
  }

  function LandsAt(schedule: seq<Attempt>, interval: nat, k: nat): nat
    requires k < |schedule|
  {
    if k == 0 then 0 else k * interval + schedule[k].land
  }

  /** The last successful attempt up to `k`. */
  function LastOk(schedule: seq<Attempt>, k: nat): (j: nat)
    requires k < |schedule| && schedule[0].ok
    ensures j <= k && schedule[j].ok
    ensures forall i :: j < i <= k ==> !schedule[i].ok
  {
    if schedule[k].ok then k else LastOk(schedule, k - 1)
  }

  /** Delays are bounded and at most `n` attempts in a row fail. */
  predicate Admissible(schedule: seq<Attempt>, maxDelay: nat, n: nat) {
    && schedule != [] && schedule[0].ok
    && (forall k :: 0 <= k < |schedule| ==> schedule[k].read <= maxDelay && schedule[k].land <= maxDelay)
    && (forall k :: 0 < k < |schedule| ==> schedule[k].read <= schedule[k].land)
    && (forall k :: 0 <= k < |schedule| ==> k - LastOk(schedule, k) <= n)
  }

  /** When an attempt takes effect, the row written by the last success before it has not
      expired; the store lets a peer steal it only strictly after the expiry instant. */
  predicate Survives(schedule: seq<Attempt>, interval: nat, ttl: nat)
    requires schedule != [] && schedule[0].ok
  {
    forall m :: 1 <= m < |schedule| ==>
      LandsAt(schedule, interval, m) <= ReadAt(schedule, interval, LastOk(schedule, m - 1)) + ttl
  }

  lemma Spread(interval: nat, k: nat, m: nat, n: nat)
    requires k <= m <= k + n
    ensures m * interval <= k * interval + n * interval
  {
    assert m * interval == k * interval + (m - k) * interval;
    assert (m - k) * interval <= n * interval;
  }

  lemma AdmissibleSurvives(schedule: seq<Attempt>, interval: nat, ttl: nat, maxDelay: nat, n: nat)
    requires Admissible(schedule, maxDelay, n) && (n + 1) * interval + 2 * maxDelay <= ttl
    ensures Survives(schedule, interval, ttl)
  {
    forall m | 1 <= m < |schedule|
      ensures LandsAt(schedule, interval, m) <= ReadAt(schedule, interval, LastOk(schedule, m - 1)) + ttl
    {
      assert (m - 1) - LastOk(schedule, m - 1) <= n;
      Spread(interval, LastOk(schedule, m - 1), m, n + 1);
    }
  }

  /** The worst schedule: an Acquire as slow as possible, `n` failures, then a success as late
      as possible. */
  function Worst(n: nat, maxDelay: nat): (schedule: seq<Attempt>)
    ensures |schedule| == n + 2
  {
    [Attempt(maxDelay, 0, true)] + seq(n, i => Attempt(0, 0, false)) + [Attempt(maxDelay, maxDelay, true)]
  }

  lemma {:induction false} WorstLastOk(n: nat, maxDelay: nat, k: nat)
    requires k <= n
    ensures LastOk(Worst(n, maxDelay), k) == 0
  {
    if k > 0 {
      WorstLastOk(n, maxDelay, k - 1);
    }
  }

  lemma WorstAdmissible(n: nat, maxDelay: nat)
    ensures Admissible(Worst(n, maxDelay), maxDelay, n)
  {
    var w := Worst(n, maxDelay);
    forall k | 0 <= k < |w| ensures k - LastOk(w, k) <= n {
      if k <= n { WorstLastOk(n, maxDelay, k); }
    }
  }

  /** For any TTL, renewal interval, call delay and number of failures: the lease survives every
      run with at most `n` consecutive failed renewals exactly when the next attempt, at its
      latest, comes within the TTL of a clock reading taken that long before the ticker: the
      delay of the calls counts twice. */
  lemma SurvivalBound(interval: nat, ttl: nat, maxDelay: nat, n: nat)
    ensures (forall schedule :: Admissible(schedule, maxDelay, n) ==> Survives(schedule, interval, ttl)) <==>
            (n + 1) * interval + 2 * maxDelay <= ttl
  {
    if (n + 1) * interval + 2 * maxDelay <= ttl {
      forall schedule | Admissible(schedule, maxDelay, n) ensures Survives(schedule, interval, ttl) {
        AdmissibleSurvives(schedule, interval, ttl, maxDelay, n);
      }
    } else {
      var w := Worst(n, maxDelay);
      WorstAdmissible(n, maxDelay);
      WorstLastOk(n, maxDelay, n);
      assert LandsAt(w, interval, n + 1) == (n + 1) * interval + maxDelay;
      assert ReadAt(w, interval, LastOk(w, n + 1 - 1)) == 0 - maxDelay;
    }
  }

  const LEASE_TTL: nat := 30
  const RENEW_INTERVAL: nat := 10

  /** With the shipped constants two failures in a row leave the third attempt no slack at all,
      and one failure is survived only if calls take five seconds at most. */
  lemma ShippedConstants(maxDelay: nat)
    ensures (forall schedule :: Admissible(schedule, maxDelay, 2) ==> Survives(schedule, RENEW_INTERVAL, LEASE_TTL))
            <==> maxDelay == 0
    ensures (forall schedule :: Admissible(schedule, maxDelay, 1) ==> Survives(schedule, RENEW_INTERVAL, LEASE_TTL))
            <==> maxDelay <= 5
  {
    SurvivalBound(RENEW_INTERVAL, LEASE_TTL, maxDelay, 2);
    SurvivalBound(RENEW_INTERVAL, LEASE_TTL, maxDelay, 1);
  }
}
