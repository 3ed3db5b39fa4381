/** The two retry schedules: `backoff_seconds` of the send loop (cap 900) and of the fan-out (cap 3600). */
module Backoff {
  import opened Prelude

  const SEND_CAP := 900
  const FANOUT_CAP := 3600

  function Seconds(attempts: int, cap: nat): nat {
    Min(30 * Pow2(Max(0, attempts - 1)), cap)
  }

  function SendSeconds(attempts: int): nat { Seconds(attempts, SEND_CAP) }

  function FanoutSeconds(attempts: int): nat { Seconds(attempts, FANOUT_CAP) }

  /** Total wait scheduled by failures 1..n. */
  function TotalWait(n: nat, cap: nat): nat {
    if n == 0 then 0 else TotalWait(n - 1, cap) + Seconds(n, cap)
  }

  /** The schedule never shrinks, starts at 30 seconds and never passes its cap. */
  lemma SecondsMonotoneAndCapped(a: int, b: int, cap: nat)
    requires a <= b && cap >= 30
    ensures 30 <= Seconds(a, cap) <= Seconds(b, cap) <= cap
  {
    Pow2Monotone(Max(0, a - 1), Max(0, b - 1));
  }

  lemma Powers()
    ensures Pow2(0) == 1 && Pow2(1) == 2 && Pow2(2) == 4 && Pow2(3) == 8 && Pow2(4) == 16 && Pow2(5) == 32
  {
    assert Pow2(2) == 2 * Pow2(1);
    assert Pow2(3) == 2 * Pow2(2);
    assert Pow2(4) == 2 * Pow2(3);
    assert Pow2(5) == 2 * Pow2(4);
  }

  /** Closed form of the send loop's schedule: it doubles for five failures, then stays at the cap. */
  lemma {:induction false} SendTotalClosedForm(n: nat)
    ensures TotalWait(n, SEND_CAP) == if n <= 5 then 30 * (Pow2(n) - 1) else 930 + 900 * (n - 5)
  {
    Powers();
    if n > 0 {
      SendTotalClosedForm(n - 1);
      if n > 5 {
        Pow2Monotone(5, n - 1);
      }
    }
  }

  /** A delivery waits at most five times (attempts 1 to 5 of 6), so the hour cap of the fan-out schedule is never
      reached. */
  lemma FanoutTotal(n: nat)
    requires n <= 5
    ensures TotalWait(n, FANOUT_CAP) == 30 * (Pow2(n) - 1) <= 930
    ensures n > 0 ==> FanoutSeconds(n) <= 480 < FANOUT_CAP
  {
    Powers();
    assert TotalWait(0, FANOUT_CAP) == 0;
    assert TotalWait(1, FANOUT_CAP) == 30;
    assert TotalWait(2, FANOUT_CAP) == 90;
    assert TotalWait(3, FANOUT_CAP) == 210;
    assert TotalWait(4, FANOUT_CAP) == 450;
    assert TotalWait(5, FANOUT_CAP) == 930;
  }

  // ---------- failure times that respect a schedule ----------

  /** The (i+1)-th failure comes at least the i-th wait after the i-th. */
  ghost predicate Spaced(fails: seq<int>, cap: nat) {
    forall i | 0 < i < |fails| :: fails[i] >= fails[i - 1] + Seconds(i, cap)
  }

  /** The wait after the latest failure has run out by time `t`. */
  ghost predicate Rested(fails: seq<int>, t: int, cap: nat) {
    |fails| > 0 ==> t >= fails[|fails| - 1] + Seconds(|fails|, cap)
  }

  lemma {:induction false} SpacedTotal(fails: seq<int>, n: nat, cap: nat)
    requires Spaced(fails, cap) && n < |fails|
    ensures fails[n] - fails[0] >= TotalWait(n, cap)
  {
    if n > 0 {
      SpacedTotal(fails, n - 1, cap);
    }
  }
}
