/**
  A stable sort, which is all the Grafana handler uses of the language's own sort: the result is sorted and equal-
  ranking elements keep their order. Any function with these two properties is this one (`StableSortUnique`).
 */
module StableSort {

  ghost predicate TotalPreorder<T(!new)>(le: (T, T) -> bool) {
    && (forall x, y :: le(x, y) || le(y, x))
    && (forall x, y, z :: le(x, y) && le(y, z) ==> le(x, z))
  }

  predicate Ties<T(!new)>(le: (T, T) -> bool, x: T, y: T) { le(x, y) && le(y, x) }

  ghost predicate SortedBy<T(!new)>(s: seq<T>, le: (T, T) -> bool) {
    forall i, j | 0 <= i < j < |s| :: le(s[i], s[j])
  }

  function Insert<T(!new)>(x: T, s: seq<T>, le: (T, T) -> bool): (r: seq<T>)
    ensures |r| == |s| + 1
  {
    if s == [] || le(x, s[0]) then [x] + s else [s[0]] + Insert(x, s[1..], le)
  }

  function Sort<T(!new)>(s: seq<T>, le: (T, T) -> bool): (r: seq<T>)
    ensures |r| == |s|
  {
    if s == [] then [] else Insert(s[0], Sort(s[1..], le), le)
  }

  /** The elements of `s` that rank equal to `x`, in order. */
  function Class<T(!new)>(s: seq<T>, le: (T, T) -> bool, x: T): seq<T> {
    if s == [] then [] else (if Ties(le, x, s[0]) then [s[0]] else []) + Class(s[1..], le, x)
  }

  // ---------- the sort is sorted, a permutation, and stable ----------

  lemma {:induction false} InsertSorts<T(!new)>(x: T, s: seq<T>, le: (T, T) -> bool)
    requires TotalPreorder(le) && SortedBy(s, le)
    ensures SortedBy(Insert(x, s, le), le)
    ensures multiset(Insert(x, s, le)) == multiset(s) + multiset{x}
  {
    if s == [] || le(x, s[0]) {
      forall i | 0 <= i < |s| ensures le(x, s[i]) { if i > 0 { assert le(s[0], s[i]); } }
    } else {
      InsertSorts(x, s[1..], le);
      var r := Insert(x, s[1..], le);
      assert s == [s[0]] + s[1..];
      forall i | 0 <= i < |r| ensures le(s[0], r[i]) {
        assert r[i] in multiset(r);
        if r[i] != x {
          assert r[i] in s[1..];
        }
      }
    }
  }

  lemma {:induction false} SortSorts<T(!new)>(s: seq<T>, le: (T, T) -> bool)
    requires TotalPreorder(le)
    ensures SortedBy(Sort(s, le), le) && multiset(Sort(s, le)) == multiset(s)
  {
    if s != [] {
      SortSorts(s[1..], le);
      InsertSorts(s[0], Sort(s[1..], le), le);
      assert s == [s[0]] + s[1..];
    }
  }

  lemma ClassOfCons<T(!new)>(x: T, s: seq<T>, le: (T, T) -> bool, y: T)
    ensures Class([x] + s, le, y) == (if Ties(le, y, x) then [x] else []) + Class(s, le, y)
  {
    assert ([x] + s)[1..] == s;
  }

  lemma {:induction false} InsertStable<T(!new)>(x: T, s: seq<T>, le: (T, T) -> bool, y: T)
    requires TotalPreorder(le)
    ensures Class(Insert(x, s, le), le, y) == (if Ties(le, y, x) then [x] else []) + Class(s, le, y)
  {
    if s == [] || le(x, s[0]) {
      ClassOfCons(x, s, le, y);
    } else {
      var r := Insert(x, s[1..], le);
      InsertStable(x, s[1..], le, y);
      assert Insert(x, s, le) == [s[0]] + r;
      ClassOfCons(s[0], r, le, y);
      if Ties(le, y, x) {
        assert !Ties(le, y, s[0]);
        assert Class(s, le, y) == Class(s[1..], le, y);
      } else {
        assert Class(r, le, y) == Class(s[1..], le, y);
      }
    }
  }

  lemma {:induction false} SortStable<T(!new)>(s: seq<T>, le: (T, T) -> bool, y: T)
    requires TotalPreorder(le)
    ensures Class(Sort(s, le), le, y) == Class(s, le, y)
  {
    if s != [] {
      SortStable(s[1..], le, y);
      InsertStable(s[0], Sort(s[1..], le), le, y);
    }
  }

  lemma {:induction false} ClassMember<T(!new)>(s: seq<T>, le: (T, T) -> bool, x: T)
    requires |Class(s, le, x)| > 0
    ensures exists i :: 0 <= i < |s| && Ties(le, x, s[i])
  {
    if !Ties(le, x, s[0]) {
      ClassMember(s[1..], le, x);
      var i :| 0 <= i < |s[1..]| && Ties(le, x, s[1..][i]);
      assert Ties(le, x, s[i + 1]);
    }
  }

  /** Two sorted sequences with the same number of elements in each class start with elements that rank equal. */
  lemma FirstsTie<T(!new)>(a: seq<T>, b: seq<T>, le: (T, T) -> bool)
    requires TotalPreorder(le) && SortedBy(a, le) && SortedBy(b, le) && a != [] && b != []
    requires forall x :: |Class(a, le, x)| == |Class(b, le, x)|
    ensures Ties(le, a[0], b[0])
  {
    assert le(a[0], a[0]) && le(b[0], b[0]);
    assert |Class(a, le, a[0])| > 0 && |Class(b, le, b[0])| > 0;
    ClassMember(b, le, a[0]);
    var i :| 0 <= i < |b| && Ties(le, a[0], b[i]);
    assert le(b[0], b[i]);
    ClassMember(a, le, b[0]);
    var j :| 0 <= j < |a| && Ties(le, b[0], a[j]);
    assert le(a[0], a[j]);
  }

  lemma EmptyTogether<T(!new)>(a: seq<T>, b: seq<T>, le: (T, T) -> bool)
    requires TotalPreorder(le) && (forall x :: |Class(a, le, x)| == |Class(b, le, x)|)
    ensures a == [] <==> b == []
  {
    if a != [] { assert le(a[0], a[0]); assert |Class(a, le, a[0])| > 0; }
    if b != [] { assert le(b[0], b[0]); assert |Class(b, le, b[0])| > 0; }
  }

  /** Sortedness and the order within each class determine a sequence; so there is only one stable sort. */
  lemma {:induction false} StableSortUnique<T(!new)>(a: seq<T>, b: seq<T>, le: (T, T) -> bool)
    requires TotalPreorder(le) && SortedBy(a, le) && SortedBy(b, le)
    requires forall x :: Class(a, le, x) == Class(b, le, x)
    ensures a == b
  {
    EmptyTogether(a, b, le);
    if a != [] {
      FirstsTie(a, b, le);
      assert le(a[0], a[0]);
      assert Class(a, le, a[0])[0] == a[0] && Class(b, le, a[0])[0] == b[0];
      forall x ensures Class(a[1..], le, x) == Class(b[1..], le, x) {
        var d := if Ties(le, x, a[0]) then 1 else 0;
        assert Class(a[1..], le, x) == Class(a, le, x)[d..];
        assert Class(b[1..], le, x) == Class(b, le, x)[d..];
      }
      StableSortUnique(a[1..], b[1..], le);
    }
  }

  /** So the model's sort is any stable sort: whatever is sorted and keeps the order within each class is `Sort(s, le)`.
      */
  lemma StableSortIsSort<T(!new)>(s: seq<T>, r: seq<T>, le: (T, T) -> bool)
    requires TotalPreorder(le) && SortedBy(r, le) && forall x :: Class(r, le, x) == Class(s, le, x)
    ensures r == Sort(s, le)
  {
    SortSorts(s, le);
    forall x ensures Class(r, le, x) == Class(Sort(s, le), le, x) { SortStable(s, le, x); }
    StableSortUnique(r, Sort(s, le), le);
  }

  // ---------- when the order of the input does not matter ----------

  function Map<T, K>(f: T -> K, s: seq<T>): (r: seq<K>)
    ensures |r| == |s| && forall i | 0 <= i < |s| :: r[i] == f(s[i])
  {
    if s == [] then [] else [f(s[0])] + Map(f, s[1..])
  }

  /** Elements that rank equal look equal through `f`. */
  ghost predicate TiesAgree<T(!new), K>(s: seq<T>, le: (T, T) -> bool, f: T -> K) {
    forall x, y | x in s && y in s && Ties(le, x, y) :: f(x) == f(y)
  }

  lemma {:induction false} ClassSizeOfConcat<T(!new)>(a: seq<T>, b: seq<T>, le: (T, T) -> bool, x: T)
    ensures |Class(a + b, le, x)| == |Class(a, le, x)| + |Class(b, le, x)|
  {
    if a == [] {
      assert a + b == b;
    } else {
      assert (a + b)[0] == a[0] && (a + b)[1..] == a[1..] + b;
      ClassSizeOfConcat(a[1..], b, le, x);
    }
  }

  /** `s` without its k-th element. */
  function Without<T>(s: seq<T>, k: nat): seq<T>
    requires k < |s|
  {
    s[..k] + s[k + 1..]
  }

  lemma WithoutOne<T>(s: seq<T>, k: nat)
    requires k < |s|
    ensures multiset(s) == multiset(Without(s, k)) + multiset{s[k]}
  {
    assert s == s[..k] + ([s[k]] + s[k + 1..]);
  }

  /** Two arrangements of the same elements: the first of one is somewhere in the other, and without it they still
      are. */
  lemma MatchFirst<T>(a: seq<T>, b: seq<T>) returns (k: nat)
    requires multiset(a) == multiset(b) && a != []
    ensures k < |b| && b[k] == a[0] && multiset(a[1..]) == multiset(Without(b, k))
  {
    assert a[0] in multiset(b);
    k :| 0 <= k < |b| && b[k] == a[0];
    WithoutOne(a, 0);
    WithoutOne(b, k);
    assert Without(a, 0) == a[1..];
    assert multiset(a[1..]) == multiset(a) - multiset{a[0]};
    assert multiset(Without(b, k)) == multiset(b) - multiset{b[k]};
  }

  lemma BothEmpty<T>(a: seq<T>, b: seq<T>)
    requires multiset(a) == multiset(b) && a == []
    ensures b == []
  {
    assert |b| == |multiset(b)| == 0;
  }

  lemma ClassWithoutOne<T(!new)>(b: seq<T>, k: nat, le: (T, T) -> bool, x: T)
    requires k < |b|
    ensures |Class(b, le, x)| == |Class(Without(b, k), le, x)| + if Ties(le, x, b[k]) then 1 else 0
  {
    assert b == b[..k] + b[k..] && b[k..] == [b[k]] + b[k + 1..];
    ClassSizeOfConcat(b[..k], b[k + 1..], le, x);
    ClassSizeOfConcat(b[..k], b[k..], le, x);
    assert b[k..][1..] == b[k + 1..];
  }

  /** Class sizes depend on the elements only, not on their order. */
  lemma {:induction false} ClassSizeOfPermutation<T(!new)>(a: seq<T>, b: seq<T>, le: (T, T) -> bool, x: T)
    requires multiset(a) == multiset(b)
    ensures |Class(a, le, x)| == |Class(b, le, x)|
  {
    if a == [] {
      BothEmpty(a, b);
    } else {
      var k := MatchFirst(a, b);
      ClassWithoutOne(b, k, le, x);
      ClassSizeOfPermutation(a[1..], Without(b, k), le, x);
    }
  }

  lemma {:induction false} SortedImagesEqual<T(!new), K>(a: seq<T>, b: seq<T>, le: (T, T) -> bool, f: T -> K)
    requires TotalPreorder(le) && SortedBy(a, le) && SortedBy(b, le)
    requires forall x :: |Class(a, le, x)| == |Class(b, le, x)|
    requires forall x, y | x in a && y in b && Ties(le, x, y) :: f(x) == f(y)
    ensures Map(f, a) == Map(f, b)
  {
    EmptyTogether(a, b, le);
    if a != [] {
      FirstsTie(a, b, le);
      assert a[0] in a && b[0] in b;
      assert forall x :: Ties(le, x, a[0]) <==> Ties(le, x, b[0]);
      forall x ensures |Class(a[1..], le, x)| == |Class(b[1..], le, x)| {
        assert |Class(a, le, x)| == |Class(b, le, x)|;
      }
      SortedImagesEqual(a[1..], b[1..], le, f);
    }
  }

  lemma OrderIrrelevantIfTiesAgree<T(!new), K>(s: seq<T>, p: seq<T>, le: (T, T) -> bool, f: T -> K)
    requires TotalPreorder(le) && multiset(p) == multiset(s) && TiesAgree(s, le, f)
    ensures Map(f, Sort(p, le)) == Map(f, Sort(s, le))
  {
    SortSorts(s, le);
    SortSorts(p, le);
    var a, b := Sort(p, le), Sort(s, le);
    forall x ensures |Class(a, le, x)| == |Class(b, le, x)| {
      ClassSizeOfPermutation(a, b, le, x);
    }
    forall x, y | x in a && y in b && Ties(le, x, y) ensures f(x) == f(y) {
      assert x in multiset(s) && y in multiset(s);
    }
    SortedImagesEqual(a, b, le, f);
  }

  lemma {:induction false} SortedStays<T(!new)>(s: seq<T>, le: (T, T) -> bool)
    requires SortedBy(s, le)
    ensures Sort(s, le) == s
  {
    if s != [] {
      SortedStays(s[1..], le);
      if |s| > 1 {
        assert le(s[0], s[1]);
      }
    }
  }

  /** In a sorted sequence, two tied elements that look different have neighbours between them that do. */
  lemma {:induction false} NeighboursDiffer<T(!new), K>(s: seq<T>, le: (T, T) -> bool, f: T -> K, i: nat,
                                              j: nat) returns (k: nat)
    requires TotalPreorder(le) && SortedBy(s, le) && i < j < |s| && Ties(le, s[i], s[j]) && f(s[i]) != f(s[j])
    ensures k + 1 < |s| && Ties(le, s[k], s[k + 1]) && f(s[k]) != f(s[k + 1])
    decreases j - i
  {
    if j == i + 1 {
      k := i;
    } else {
      assert le(s[i], s[i + 1]) && le(s[i + 1], s[j]);
      if f(s[i]) != f(s[i + 1]) {
        k := i;
      } else {
        k := NeighboursDiffer(s, le, f, i + 1, j);
      }
    }
  }

  lemma SwapNeighbours<T(!new)>(s: seq<T>, le: (T, T) -> bool, k: nat) returns (p: seq<T>)
    requires TotalPreorder(le) && SortedBy(s, le) && k + 1 < |s| && Ties(le, s[k], s[k + 1])
    ensures p == s[k := s[k + 1]][k + 1 := s[k]] && multiset(p) == multiset(s) && SortedBy(p, le)
  {
    p := s[k := s[k + 1]][k + 1 := s[k]];
  }

  /** If two tied elements look different, some rearrangement of the input shows it in the output. */
  lemma OrderMattersIfTiesDiffer<T(!new), K>(s: seq<T>, le: (T, T) -> bool, f: T -> K) returns (p: seq<T>)
    requires TotalPreorder(le) && !TiesAgree(s, le, f)
    ensures multiset(p) == multiset(s) && Map(f, Sort(p, le)) != Map(f, Sort(s, le))
  {
    SortSorts(s, le);
    var r := Sort(s, le);
    var x, y :| x in s && y in s && Ties(le, x, y) && f(x) != f(y);
    assert x in multiset(r) && y in multiset(r);
    var i :| 0 <= i < |r| && r[i] == x;
    var j :| 0 <= j < |r| && r[j] == y;
    var k := NeighboursDiffer(r, le, f, if i < j then i else j, if i < j then j else i);
    p := SwapNeighbours(r, le, k);
    SortedStays(p, le);
    assert Map(f, p)[k] == f(r[k + 1]) && Map(f, r)[k] == f(r[k]);
  }

  /** Sorting commutes with a map that keeps the order. */
  lemma {:induction false} SortOfMap<T(!new), U(!new)>(s: seq<T>, f: T -> U, le: (T, T) -> bool, le': (U, U) -> bool)
    requires forall x, y :: le'(f(x), f(y)) == le(x, y)
    ensures Sort(Map(f, s), le') == Map(f, Sort(s, le))
  {
    if s != [] {
      SortOfMap(s[1..], f, le, le');
      assert Map(f, s)[1..] == Map(f, s[1..]);
      InsertOfMap(s[0], Sort(s[1..], le), f, le, le');
    }
  }

  lemma {:induction false} InsertOfMap<T(!new), U(!new)>(x: T, s: seq<T>, f: T -> U, le: (T, T) -> bool,
                                         le': (U, U) -> bool)
    requires forall a, b :: le'(f(a), f(b)) == le(a, b)
    ensures Insert(f(x), Map(f, s), le') == Map(f, Insert(x, s, le))
  {
    if s == [] {
    } else if le(x, s[0]) {
      assert Map(f, [x] + s) == [f(x)] + Map(f, s);
    } else {
      InsertOfMap(x, s[1..], f, le, le');
      assert Map(f, s)[1..] == Map(f, s[1..]);
      assert Insert(x, s, le) == [s[0]] + Insert(x, s[1..], le);
    }
  }
}
