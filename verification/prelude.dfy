/** Small shared vocabulary: optional values, integer helpers and sums over finite maps. */
module Prelude {

  datatype Option<+T> = None | Some(value: T)
  {
    function GetOr(default: T): T { if Some? then value else default }
  }

  function Max(a: int, b: int): int { if a >= b then a else b }

  function Min(a: int, b: int): int { if a <= b then a else b }

  predicate Distinct(ids: seq<int>) {
    forall i, j | 0 <= i < j < |ids| :: ids[i] != ids[j]
  }

  function Pow2(n: nat): (p: nat)
    ensures p >= 1
  {
    if n == 0 then 1 else 2 * Pow2(n - 1)
  }

  lemma {:induction false} Pow2Monotone(m: nat, n: nat)
    requires m <= n
    ensures Pow2(m) <= Pow2(n)
  {
    if m < n {
      Pow2Monotone(m, n - 1);
    }
  }

  /** The sum of all values of a finite map. */
  ghost function Sum(m: map<int, nat>): nat
    decreases |m|
  {
    if exists x :: x in m then
      var x :| x in m;
      m[x] + Sum(m - {x})
    else 0
  }

  /** The sum does not depend on the order in which the entries are taken. */
  lemma {:induction false} SumTakeOut(m: map<int, nat>, x: int)
    requires x in m
    ensures Sum(m) == m[x] + Sum(m - {x})
    decreases |m|
  {
    var y :| y in m && Sum(m) == m[y] + Sum(m - {y});
    if y != x {
      SumTakeOut(m - {y}, x);
      SumTakeOut(m - {x}, y);
      assert m - {y} - {x} == m - {x} - {y};
    }
  }

  function At(m: map<int, nat>, x: int): nat { if x in m then m[x] else 0 }

  lemma SumSplit(m: map<int, nat>, x: int)
    ensures Sum(m) == At(m, x) + Sum(m - {x})
  {
    if x in m {
      SumTakeOut(m, x);
    } else {
      assert m - {x} == m;
    }
  }

  ghost predicate Dominated(a: map<int, nat>, b: map<int, nat>) {
    forall x | x in a :: x in b && a[x] <= b[x]
  }

  lemma {:induction false} SumMonotone(a: map<int, nat>, b: map<int, nat>)
    requires Dominated(a, b)
    ensures Sum(a) <= Sum(b)
    decreases |a|
  {
    if x: int :| x in a {
      SumTakeOut(a, x);
      SumTakeOut(b, x);
      SumMonotone(a - {x}, b - {x});
    }
  }

  /** Lowering one entry (possibly to nothing) lowers the sum. */
  lemma SumDrops(a: map<int, nat>, b: map<int, nat>, x: int)
    requires Dominated(a, b)
    requires At(a, x) < At(b, x)
    ensures Sum(a) + 1 <= Sum(b)
  {
    SumMonotone(a - {x}, b - {x});
    SumSplit(a, x);
    SumSplit(b, x);
  }

  /** Raising one entry by at most one raises the sum by at most one. */
  lemma SumBumps(a: map<int, nat>, b: map<int, nat>, x: int)
    requires Dominated(a - {x}, b)
    requires At(a, x) <= At(b, x) + 1
    ensures Sum(a) <= Sum(b) + 1
  {
    SumMonotone(a - {x}, b - {x});
    SumSplit(a, x);
    SumSplit(b, x);
  }

  lemma {:induction false} SumBounded(m: map<int, nat>, k: nat)
    requires forall x | x in m :: m[x] <= k
    ensures Sum(m) <= k * |m|
    decreases |m|
  {
    if x: int :| x in m {
      SumTakeOut(m, x);
      SumBounded(m - {x}, k);
      OneLess(m, x);
      OneMore(k, |m - {x}|);
    }
  }

  lemma OneLess(m: map<int, nat>, x: int)
    requires x in m
    ensures |m| == |m - {x}| + 1
  {
    assert m.Keys == (m - {x}).Keys + {x};
  }

  lemma OneMore(k: nat, n: nat)
    ensures k * (n + 1) == k * n + k
  {
  }

  lemma {:induction false} TimesMonotone(k: nat, a: nat, b: nat)
    requires a <= b
    ensures k * a <= k * b
  {
    if a < b {
      TimesMonotone(k, a, b - 1);
      OneMore(k, b - 1);
    }
  }

  lemma {:induction false} SmallerSet(a: set<int>, b: set<int>)
    requires a <= b
    ensures |a| <= |b|
    decreases |a|
  {
    if x: int :| x in a {
      SmallerSet(a - {x}, b - {x});
    } else {
      NoMembers(a);
    }
  }

  lemma NoMembers(a: set<int>)
    ensures (forall x :: x !in a) ==> |a| == 0
  {
    if forall x :: x !in a {
      assert a == {};
    }
  }

  /** Iterating a collection whose order does not matter: some member of it. */
  method PickId(ids: set<int>) returns (id: int)
    requires ids != {}
    ensures id in ids
  {
    NoMembers(ids);
    id :| id in ids;
  }
}
