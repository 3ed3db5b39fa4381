/** The sliding-window limiter in front of the SMS provider. */
module Limiter {

  const WINDOW := 60.0

  function MaxReal(a: real, b: real): real { if a >= b then a else b }

  // ---------- specification over the whole history of grants ----------

  ghost predicate Sorted(g: seq<real>) {
    forall i, j | 0 <= i < j < |g| :: g[i] <= g[j]
  }

  /** The grants of `g` that still lie in the last 60 seconds at time `t`. */
  ghost function Recent(g: seq<real>, t: real): seq<real> {
    if g == [] then []
    else (if t - g[0] < 60.0 then [g[0]] else []) + Recent(g[1..], t)
  }

  /** Grants in the half-open window [a, a + 60). */
  ghost function CountIn(g: seq<real>, a: real): nat {
    if g == [] then 0
    else CountIn(g[..|g| - 1], a) + if a <= g[|g| - 1] < a + 60.0 then 1 else 0
  }

  /** Any `n` consecutive grants are followed by a grant at least 60 seconds after the first of them. */
  ghost predicate Paced(g: seq<real>, n: nat) {
    forall i | 0 <= i && i + n < |g| :: g[i + n] - g[i] >= 60.0
  }

  lemma {:induction false} RecentAppend(g: seq<real>, x: real, t: real)
    ensures Recent(g + [x], t) == Recent(g, t) + if t - x < WINDOW then [x] else []
  {
    if g != [] {
      assert (g + [x])[1..] == g[1..] + [x];
      RecentAppend(g[1..], x, t);
    } else {
      assert [x][1..] == [];
    }
  }

  lemma {:induction false} RecentLater(g: seq<real>, s: real, t: real)
    requires s <= t
    ensures Recent(Recent(g, s), t) == Recent(g, t)
  {
    if g != [] {
      RecentLater(g[1..], s, t);
      if s - g[0] < WINDOW {
        assert Recent(g, s)[1..] == Recent(g[1..], s);
      } else {
        RecentDropsOld(g, s);
        RecentDropsOld(g, t);
      }
    }
  }

  lemma RecentDropsOld(g: seq<real>, t: real)
    requires g != [] && t - g[0] >= WINDOW
    ensures Recent(g, t) == Recent(g[1..], t)
  {
  }

  lemma {:induction false} RecentAll(g: seq<real>, t: real)
    requires Sorted(g) && (g != [] ==> t - g[0] < WINDOW)
    ensures Recent(g, t) == g
  {
    if g != [] {
      if |g| > 1 {
        assert g[0] <= g[1];
      }
      RecentAll(g[1..], t);
    }
  }

  /** For sorted grants the recent ones are a suffix. */
  lemma {:induction false} RecentIsSuffix(g: seq<real>, t: real)
    requires Sorted(g)
    ensures |Recent(g, t)| <= |g| && Recent(g, t) == g[|g| - |Recent(g, t)|..]
    ensures forall i | 0 <= i < |g| :: t - g[i] < WINDOW <==> i >= |g| - |Recent(g, t)|
  {
    if g != [] {
      if t - g[0] < WINDOW {
        RecentAll(g, t);
      } else {
        RecentDropsOld(g, t);
        RecentIsSuffix(g[1..], t);
        assert forall i | 0 < i < |g| :: g[i] == g[1..][i - 1];
      }
    }
  }

  lemma RecentSorted(g: seq<real>, t: real)
    requires Sorted(g)
    ensures Sorted(Recent(g, t))
  {
    RecentIsSuffix(g, t);
  }

  /** Granting at `t` keeps the grants paced exactly when fewer than `n` are recent: the window test is neither too
      strict nor too lax. */
  lemma GrantAllowedIff(g: seq<real>, t: real, n: nat)
    requires n > 0 && Sorted(g) && Paced(g, n) && (g != [] ==> g[|g| - 1] <= t)
    ensures Paced(g + [t], n) <==> |Recent(g, t)| < n
  {
    RecentIsSuffix(g, t);
    if |g| >= n {
      assert (g + [t])[|g| - n + n] == t && (g + [t])[|g| - n] == g[|g| - n];
      if |Recent(g, t)| < n {
        forall i | 0 <= i && i + n < |g + [t]| ensures (g + [t])[i + n] - (g + [t])[i] >= WINDOW {
          if i + n < |g| {
            assert g[i + n] - g[i] >= WINDOW;
          }
        }
      }
    }
  }

  lemma {:induction false} CountInRecent(g: seq<real>, a: real, t: real)
    requires a <= t < a + WINDOW
    ensures CountIn(g, a) <= |Recent(g, t)|
  {
    if g != [] {
      var m := |g| - 1;
      assert g == g[..m] + [g[m]];
      CountInRecent(g[..m], a, t);
      RecentAppend(g[..m], g[m], t);
    }
  }

  /** Paced grants never exceed `n` in any half-open minute. */
  lemma {:induction false} NoWindowOverfull(g: seq<real>, a: real, n: nat)
    requires n > 0 && Sorted(g) && Paced(g, n)
    ensures CountIn(g, a) <= n
  {
    if g != [] {
      var m := |g| - 1;
      assert g == g[..m] + [g[m]];
      NoWindowOverfull(g[..m], a, n);
      if a <= g[m] < a + WINDOW {
        CountInRecent(g[..m], a, g[m]);
        GrantAllowedIff(g[..m], g[m], n);
      }
    }
  }

  /** Once the oldest remembered grant has left the window, fewer than the remembered number are recent. */
  lemma FrontLeaves(g: seq<real>, full: seq<real>, t: real, now: real)
    requires Sorted(g) && |full| > 0 && t <= now && full == Recent(g, t) && now - full[0] >= WINDOW
    ensures |Recent(g, now)| < |full|
  {
    RecentIsSuffix(g, t);
    RecentIsSuffix(g, now);
    assert full[0] == g[|g| - |full|];
  }

  /** How long to sleep when the grants in `full` are all the recent ones at time `t`. */
  function WaitAt(full: seq<real>, t: real): real {
    if full == [] then 0.0 else if full[0] + 60.0 - t > 0.1 then full[0] + 60.0 - t else 0.1
  }

  // ---------- the limiter itself ----------

  /** The event loop's monotonic clock. Readings never go back and a sleep is never shorter than requested. */
  class Clock {
    var now: real
    ghost var asked: real    // how long it has been asked to sleep in all

    constructor (start: real)
      ensures now == start
    {
      now := start;
      asked := 0.0;
    }

    method Time() returns (t: real)
      modifies this`now
      ensures t == now >= old(now)
    {
      var passed: real :| passed >= 0.0;
      now := now + passed;
      t := now;
    }

    method Sleep(d: real)
      requires d >= 0.0
      modifies this
      ensures now >= old(now) + d && asked == old(asked) + d
    {
      var late: real :| late >= 0.0;
      now := now + d + late;
      asked := asked + d;
    }
  }

  class RateLimiter {
    const perMinute: nat
    var sent: seq<real>

    /** Every grant of this process life, and the time of the last one or of the last purge. */
    ghost var granted: seq<real>
    ghost var mark: real

    /** The deque is exactly the part of the history still in the window when it was last looked at; it never
        outgrows the limit, and the whole history is paced. */
    ghost predicate Valid()
      reads this
    {
      && perMinute > 0
      && Sorted(granted) && (granted != [] ==> granted[|granted| - 1] <= mark)
      && sent == Recent(granted, mark)
      && |sent| <= perMinute
      && Paced(granted, perMinute)
    }

    constructor (limit: int, ghost start: real)
      ensures Valid() && granted == [] && mark == start && perMinute == if limit >= 1 then limit else 1
    {
      perMinute := if limit >= 1 then limit else 1;
      sent := [];
      granted := [];
      mark := start;
    }

    /** The clock has not gone back since the limiter last looked at it. */
    ghost predicate Ready(clock: Clock)
      reads this, clock
    {
      Valid() && mark <= clock.now
    }

    /** Drops the grants that have left the window. */
    method Purge(now: real)
      requires Valid() && mark <= now
      modifies this`sent, this`mark
      ensures Valid() && mark == now && sent == Recent(granted, now)
      ensures |sent| > 0 ==> now - sent[0] < WINDOW
    {
      RecentLater(granted, mark, now);
      RecentSorted(granted, mark);
      while |sent| > 0 && now - sent[0] >= WINDOW
        invariant |sent| <= perMinute
        invariant Sorted(sent) && Recent(sent, now) == Recent(granted, now)
      {
        RecentDropsOld(sent, now);
        sent := sent[1..];
      }
      RecentAll(sent, now);
      mark := now;
    }

    method Append(now: real)
      requires Valid() && mark == now && |sent| < perMinute
      modifies this`sent, this`granted
      ensures Valid() && granted == old(granted) + [now] && sent == old(sent) + [now]
    {
      GrantAllowedIff(granted, now, perMinute);
      RecentAppend(granted, now, now);
      sent := sent + [now];
      granted := granted + [now];
    }

    /** Looks at the deque at time `now`: grants if fewer than the limit are recent, and otherwise grants nothing. */
    method TryAcquire(now: real) returns (ok: bool)
      requires Valid() && mark <= now
      modifies this
      ensures Valid() && mark == now && (ok <==> |Recent(old(granted), now)| < perMinute)
      ensures granted == old(granted) + if ok then [now] else []
      ensures !ok ==> sent == Recent(granted, now) && |sent| == perMinute
    {
      Purge(now);
      ok := |sent| < perMinute;
      if ok {
        Append(now);
      }
    }

    /** Waits until a send is allowed and records it. It returns after at most one sleep, and sleeps only when the
        limit is really used up: as many grants as allowed lie in the 60 seconds before `asked`, the time of the
        first look. Then it sleeps until the oldest of them has left, but no less than a tenth of a second. */
    method Acquire(clock: Clock) returns (sleeps: nat, asked: real, at: real)
      requires Ready(clock)
      modifies this, clock
      ensures Ready(clock) && granted == old(granted) + [at] && mark == at == clock.now && old(clock.now) <= asked <= at
      ensures sleeps <= 1
      ensures sleeps == 0 <==> |Recent(old(granted), asked)| < perMinute
      ensures sleeps == 0 ==> at == asked
      ensures clock.asked == old(clock.asked) + if sleeps == 0 then 0.0 else WaitAt(Recent(old(granted), asked), asked)
      ensures |Recent(old(granted), at)| < perMinute
    {
      sleeps := 0;
      asked := clock.now;
      ghost var full: seq<real> := [];
      while true
        invariant Ready(clock) && granted == old(granted) && old(clock.now) <= asked <= clock.now
        invariant sleeps <= 1
        invariant clock.asked == old(clock.asked) + if sleeps == 0 then 0.0 else WaitAt(full, asked)
        invariant sleeps == 1 ==>
          full == Recent(granted, asked) && |full| == perMinute && clock.now - full[0] >= WINDOW
        decreases 1 - sleeps
      {
        var now := clock.Time();
        if sleeps == 0 { asked := now; } else { FrontLeaves(granted, full, asked, now); }
        var ok := TryAcquire(now);
        if ok {
          at := now;
          return;
        }
        full := sent;
        clock.Sleep(MaxReal(0.1, WINDOW - (now - sent[0])));
        sleeps := sleeps + 1;
      }
    }
  }

  /** Put together: however many times a limiter is asked, no half-open minute of its life holds more grants than the
      limit. */
  lemma LimiterNeverOverfull(limiter: RateLimiter, a: real)
    requires limiter.Valid()
    ensures CountIn(limiter.granted, a) <= limiter.perMinute
  {
    NoWindowOverfull(limiter.granted, a, limiter.perMinute);
  }
}
