/**
 * Sequence helpers: LINQ `Where(...).ToList()` as `Filter`, and a stable
 * sort standing for LINQ `OrderBy`/`ThenBy`, with the facts the model needs
 * about both.
 */
module Seqs {

  /** LINQ `Where(p).ToList()`: the elements satisfying `p`, in their original order. */
  function Filter<T(!new)>(s: seq<T>, p: T -> bool): (r: seq<T>)
    ensures |r| <= |s|
    ensures forall x :: x in r <==> x in s && p(x)
  {
    if s == [] then []
    else (if p(s[0]) then [s[0]] else []) + Filter(s[1..], p)
  }

  /** `a` can be obtained from `b` by deleting elements, keeping the order of the rest. */
  ghost predicate IsSubsequence<T>(a: seq<T>, b: seq<T>)
    decreases |b|
  {
    if a == [] then true
    else if b == [] then false
    else (a[0] == b[0] && IsSubsequence(a[1..], b[1..])) || IsSubsequence(a, b[1..])
  }

  /** A filter never reorders: its result is a subsequence of its input. */
  lemma {:induction false} FilterIsSubsequence<T(!new)>(s: seq<T>, p: T -> bool)
    ensures IsSubsequence(Filter(s, p), s)
  {
    if s != [] {
      FilterIsSubsequence(s[1..], p);
      var r := Filter(s, p);
      if p(s[0]) {
        assert r[0] == s[0] && r[1..] == Filter(s[1..], p);
      } else {
        assert r == Filter(s[1..], p);
      }
    }
  }

  /** Filtering twice with the same predicate is filtering once. */
  lemma {:induction false} FilterIdempotent<T(!new)>(s: seq<T>, p: T -> bool)
    ensures Filter(Filter(s, p), p) == Filter(s, p)
  {
    if s != [] {
      FilterIdempotent(s[1..], p);
      if p(s[0]) {
        assert Filter(s, p) == [s[0]] + Filter(s[1..], p);
        FilterAppend([s[0]], Filter(s[1..], p), p);
      } else {
        assert Filter(s, p) == Filter(s[1..], p);
      }
    }
  }

  /** Two filters in a row keep exactly what both predicates accept. */
  lemma {:induction false} FilterFilter<T(!new)>(s: seq<T>, p: T -> bool, q: T -> bool)
    ensures Filter(Filter(s, p), q) == Filter(s, x => p(x) && q(x))
  {
    if s != [] {
      FilterFilter(s[1..], p, q);
      if p(s[0]) {
        assert Filter(s, p) == [s[0]] + Filter(s[1..], p);
        FilterAppend([s[0]], Filter(s[1..], p), q);
      } else {
        assert Filter(s, p) == Filter(s[1..], p);
      }
    }
  }

  /** A predicate true of every element keeps the whole sequence. */
  lemma {:induction false} FilterAll<T(!new)>(s: seq<T>, p: T -> bool)
    requires forall i :: 0 <= i < |s| ==> p(s[i])
    ensures Filter(s, p) == s
  {
    if s != [] {
      FilterAll(s[1..], p);
      assert [s[0]] + s[1..] == s;
    }
  }

  /** Filtering commutes with appending. */
  lemma {:induction false} FilterAppend<T(!new)>(a: seq<T>, b: seq<T>, p: T -> bool)
    ensures Filter(a + b, p) == Filter(a, p) + Filter(b, p)
  {
    if a != [] {
      FilterAppend(a[1..], b, p);
      assert (a + b)[1..] == a[1..] + b;
    } else {
      assert a + b == b;
    }
  }

  /** Position `i` is the one and only position of `s` whose element satisfies `p`. */
  predicate SoleWitness<T>(s: seq<T>, p: T -> bool, i: int)
  {
    0 <= i < |s| && p(s[i]) && forall j :: 0 <= j < |s| && j != i ==> !p(s[j])
  }

  /** With exactly one accepted position, the filter holds just that element. */
  lemma {:induction false} FilterSole<T(!new)>(s: seq<T>, p: T -> bool, i: int)
    requires SoleWitness(s, p, i)
    ensures Filter(s, p) == [s[i]]
  {
    if i == 0 {
      assert forall j :: 0 <= j < |s[1..]| ==> !p(s[1..][j]) by {
        forall j | 0 <= j < |s[1..]| ensures !p(s[1..][j]) {
          assert s[1..][j] == s[j + 1];
        }
      }
      FilterNone(s[1..], p);
    } else {
      assert SoleWitness(s[1..], p, i - 1) by {
        forall j | 0 <= j < |s[1..]| && j != i - 1 ensures !p(s[1..][j]) {
          assert s[1..][j] == s[j + 1];
        }
      }
      FilterSole(s[1..], p, i - 1);
    }
  }

  lemma {:induction false} FilterNone<T(!new)>(s: seq<T>, p: T -> bool)
    requires forall j :: 0 <= j < |s| ==> !p(s[j])
    ensures Filter(s, p) == []
  {
    if s != [] {
      assert forall j :: 0 <= j < |s[1..]| ==> !p(s[1..][j]) by {
        forall j | 0 <= j < |s[1..]| ensures !p(s[1..][j]) {
          assert s[1..][j] == s[j + 1];
        }
      }
      FilterNone(s[1..], p);
    }
  }

  /** A filter of length one comes from exactly one accepted position. */
  lemma {:induction false} FilterOneHasWitness<T(!new)>(s: seq<T>, p: T -> bool)
    requires |Filter(s, p)| == 1
    ensures exists i :: SoleWitness(s, p, i) && Filter(s, p)[0] == s[i]
  {
    if p(s[0]) {
      assert Filter(s[1..], p) == [];
      assert forall j :: 0 <= j < |s| && j != 0 ==> !p(s[j]) by {
        forall j | 0 <= j < |s| && j != 0 ensures !p(s[j]) {
          assert s[j] in s[1..];
        }
      }
      assert SoleWitness(s, p, 0);
    } else {
      FilterOneHasWitness(s[1..], p);
      var i :| SoleWitness(s[1..], p, i) && Filter(s[1..], p)[0] == s[1..][i];
      assert SoleWitness(s, p, i + 1) by {
        forall j | 0 <= j < |s| && j != i + 1 ensures !p(s[j]) {
          if j > 0 { assert s[j] == s[1..][j - 1]; }
        }
      }
    }
  }

  /** Two distinct accepted positions make the filter at least two long. */
  lemma {:induction false} FilterTwo<T(!new)>(s: seq<T>, p: T -> bool, i: int, j: int)
    requires 0 <= i < j < |s| && p(s[i]) && p(s[j])
    ensures |Filter(s, p)| >= 2
  {
    if i == 0 {
      assert s[j] in s[1..];
      assert s[j] in Filter(s[1..], p);
    } else {
      FilterTwo(s[1..], p, i - 1, j - 1);
    }
  }

  /** A filter of length two or more has two distinct accepted positions. */
  lemma {:induction false} FilterTwoHasWitnesses<T(!new)>(s: seq<T>, p: T -> bool)
    requires |Filter(s, p)| >= 2
    ensures exists i, j :: 0 <= i < j < |s| && p(s[i]) && p(s[j])
  {
    if p(s[0]) {
      var r := Filter(s[1..], p);
      assert r[0] in r;
      var m :| 0 <= m < |s[1..]| && s[1..][m] == r[0];
      assert p(s[0]) && p(s[m + 1]);
    } else {
      FilterTwoHasWitnesses(s[1..], p);
      var i, j :| 0 <= i < j < |s[1..]| && p(s[1..][i]) && p(s[1..][j]);
      assert p(s[i + 1]) && p(s[j + 1]);
    }
  }

  /** How many positions a filter accepts: none, exactly one, or two or more. */
  lemma FilterCount<T(!new)>(s: seq<T>, p: T -> bool)
    ensures |Filter(s, p)| == 0 <==> forall i :: 0 <= i < |s| ==> !p(s[i])
    ensures |Filter(s, p)| == 1 <==> exists i :: SoleWitness(s, p, i)
    ensures |Filter(s, p)| >= 2 <==> exists i, j :: 0 <= i < j < |s| && p(s[i]) && p(s[j])
    ensures |Filter(s, p)| == 1 ==> exists i :: SoleWitness(s, p, i) && Filter(s, p)[0] == s[i]
  {
    if |Filter(s, p)| == 1 {
      FilterOneHasWitness(s, p);
    }
    if |Filter(s, p)| >= 2 {
      FilterTwoHasWitnesses(s, p);
    }
    if exists i :: SoleWitness(s, p, i) {
      var i :| SoleWitness(s, p, i);
      FilterSole(s, p, i);
    }
    if exists i, j :: 0 <= i < j < |s| && p(s[i]) && p(s[j]) {
      var i, j :| 0 <= i < j < |s| && p(s[i]) && p(s[j]);
      FilterTwo(s, p, i, j);
    }
    if exists i :: 0 <= i < |s| && p(s[i]) {
      var i :| 0 <= i < |s| && p(s[i]);
      assert s[i] in Filter(s, p);
    }
  }

  /** Filtering only depends on what the predicate accepts. */
  lemma {:induction false} FilterExt<T(!new)>(s: seq<T>, p: T -> bool, q: T -> bool)
    requires forall x :: p(x) == q(x)
    ensures Filter(s, p) == Filter(s, q)
  {
    if s != [] {
      FilterExt(s[1..], p, q);
    }
  }

  /** Two filters in a row are one filter by any predicate accepting what both accept. */
  lemma TwoStageFilter<T(!new)>(s: seq<T>, p: T -> bool, q: T -> bool, both: T -> bool)
    requires forall x :: both(x) == (p(x) && q(x))
    ensures Filter(Filter(s, p), q) == Filter(s, both)
  {
    FilterFilter(s, p, q);
    FilterExt(s, x => p(x) && q(x), both);
  }

  // ---------------------------------------------------------------------
  // Stable sorting

  /** `le` is a total preorder: any two elements are comparable, and it is transitive. */
  ghost predicate TotalPreorder<T(!new)>(le: (T, T) -> bool)
  {
    && (forall a, b :: le(a, b) || le(b, a))
    && (forall a, b, c :: le(a, b) && le(b, c) ==> le(a, c))
  }

  predicate SortedBy<T>(s: seq<T>, le: (T, T) -> bool)
  {
    forall i, j :: 0 <= i < j < |s| ==> le(s[i], s[j])
  }

  /** Puts `x` before the first element it is no greater than, so ties keep `x` in front. */
  function InsertBy<T>(x: T, s: seq<T>, le: (T, T) -> bool): (r: seq<T>)
    ensures multiset(r) == multiset(s) + multiset{x}
  {
    if s == [] || le(x, s[0]) then [x] + s
    else
      assert s == [s[0]] + s[1..];
      [s[0]] + InsertBy(x, s[1..], le)
  }

  /**
   * Stable sort, as LINQ `OrderBy` is: elements that compare equal keep
   * their input order.  The head of the input is inserted in front of every
   * equal element of the sorted rest.
   */
  function SortBy<T>(s: seq<T>, le: (T, T) -> bool): (r: seq<T>)
    ensures multiset(r) == multiset(s)
  {
    if s == [] then []
    else
      assert s == [s[0]] + s[1..];
      InsertBy(s[0], SortBy(s[1..], le), le)
  }

  lemma {:induction false} InsertBySorted<T(!new)>(x: T, s: seq<T>, le: (T, T) -> bool)
    requires TotalPreorder(le)
    requires SortedBy(s, le)
    ensures SortedBy(InsertBy(x, s, le), le)
  {
    if s != [] && !le(x, s[0]) {
      InsertBySorted(x, s[1..], le);
      var t := InsertBy(x, s[1..], le);
      assert forall k :: 0 <= k < |t| ==> le(s[0], t[k]) by {
        forall k | 0 <= k < |t| ensures le(s[0], t[k]) {
          assert t[k] in multiset(t);
          assert t[k] == x || t[k] in multiset(s[1..]);
          if t[k] != x {
            var m :| 0 <= m < |s[1..]| && s[1..][m] == t[k];
            assert s[m + 1] == t[k];
          }
        }
      }
    }
  }

  /** The sort orders its output by `le`. */
  lemma {:induction false} SortBySorted<T(!new)>(s: seq<T>, le: (T, T) -> bool)
    requires TotalPreorder(le)
    ensures SortedBy(SortBy(s, le), le)
  {
    if s != [] {
      SortBySorted(s[1..], le);
      InsertBySorted(s[0], SortBy(s[1..], le), le);
    }
  }

  /** `a` and `b` are tied under `le`. */
  predicate Tied<T>(le: (T, T) -> bool, a: T, b: T)
  {
    le(a, b) && le(b, a)
  }

  lemma {:induction false} InsertByTies<T(!new)>(x: T, s: seq<T>, le: (T, T) -> bool, k: T)
    requires TotalPreorder(le)
    ensures Filter(InsertBy(x, s, le), y => Tied(le, y, k))
         == Filter([x], y => Tied(le, y, k)) + Filter(s, y => Tied(le, y, k))
  {
    var p := y => Tied(le, y, k);
    if s == [] || le(x, s[0]) {
      FilterAppend([x], s, p);
    } else {
      InsertByTies(x, s[1..], le, k);
      var t := InsertBy(x, s[1..], le);
      assert ([s[0]] + t)[1..] == t;
      assert s == [s[0]] + s[1..];
      FilterAppend([s[0]], s[1..], p);
    }
  }

  /**
   * Stability: for every element `k`, the elements tied with `k` appear in the
   * sorted output in exactly the order they had in the input.
   */
  lemma {:induction false} SortByStable<T(!new)>(s: seq<T>, le: (T, T) -> bool, k: T)
    requires TotalPreorder(le)
    ensures Filter(SortBy(s, le), y => Tied(le, y, k)) == Filter(s, y => Tied(le, y, k))
  {
    if s != [] {
      SortByStable(s[1..], le, k);
      InsertByTies(s[0], SortBy(s[1..], le), le, k);
      assert s == [s[0]] + s[1..];
      FilterAppend([s[0]], s[1..], y => Tied(le, y, k));
    }
  }

  /** `le` only ties equal elements. */
  ghost predicate Antisymmetric<T(!new)>(le: (T, T) -> bool)
  {
    forall a, b :: le(a, b) && le(b, a) ==> a == b
  }

  /** The head of a non-empty sorted sequence is below every element of it. */
  lemma SortedHeadLeast<T>(a: seq<T>, le: (T, T) -> bool, x: T)
    requires SortedBy(a, le) && x in a && le(a[0], a[0])
    ensures le(a[0], x)
  {
    var i :| 0 <= i < |a| && a[i] == x;
    if i > 0 {
      assert le(a[0], a[i]);
    }
  }

  /** Removing the same first element from two equal multisets leaves equal multisets. */
  lemma MultisetTails<T>(a: seq<T>, b: seq<T>)
    requires a != [] && b != [] && a[0] == b[0]
    requires multiset(a) == multiset(b)
    ensures multiset(a[1..]) == multiset(b[1..])
  {
    assert a == [a[0]] + a[1..] && b == [b[0]] + b[1..];
    assert multiset(a) == multiset{a[0]} + multiset(a[1..]);
    assert multiset(b) == multiset{b[0]} + multiset(b[1..]);
    assert forall x :: multiset(a[1..])[x] == multiset(a)[x] - multiset{a[0]}[x] == multiset(b[1..])[x];
  }

  /**
   * Under an antisymmetric total preorder there is only one sorted
   * arrangement of a multiset, so a sorted result does not depend on the
   * input's order.
   */
  lemma {:induction false} SortedUnique<T(!new)>(a: seq<T>, b: seq<T>, le: (T, T) -> bool)
    requires TotalPreorder(le) && Antisymmetric(le)
    requires SortedBy(a, le) && SortedBy(b, le)
    requires multiset(a) == multiset(b)
    ensures a == b
  {
    if a == [] {
      assert |b| == |multiset(b)| == 0;
    } else {
      assert |b| == |multiset(b)| == |multiset(a)| > 0;
      assert a[0] in multiset(b) && b[0] in multiset(a);
      assert le(a[0], a[0]) && le(b[0], b[0]);
      SortedHeadLeast(a, le, b[0]);
      SortedHeadLeast(b, le, a[0]);
      MultisetTails(a, b);
      SortedUnique(a[1..], b[1..], le);
      assert a == [a[0]] + a[1..] && b == [b[0]] + b[1..];
    }
  }

  // ---------------------------------------------------------------------
  // Ordinal string order

  /** Ordinal lexicographic order on strings: a proper prefix comes first. */
  predicate StringLe(a: string, b: string)
    decreases |a|
  {
    a == [] || (b != [] && (a[0] < b[0] || (a[0] == b[0] && StringLe(a[1..], b[1..]))))
  }

  lemma {:induction false} StringLeTotal(a: string, b: string)
    ensures StringLe(a, b) || StringLe(b, a)
    decreases |a|
  {
    if a != [] && b != [] && a[0] == b[0] {
      StringLeTotal(a[1..], b[1..]);
    }
  }

  lemma {:induction false} StringLeTransitive(a: string, b: string, c: string)
    requires StringLe(a, b) && StringLe(b, c)
    ensures StringLe(a, c)
    decreases |a|
  {
    if a != [] && a[0] == b[0] && b[0] == c[0] {
      StringLeTransitive(a[1..], b[1..], c[1..]);
    }
  }

  lemma {:induction false} StringLeAntisymmetric(a: string, b: string)
    requires StringLe(a, b) && StringLe(b, a)
    ensures a == b
    decreases |a|
  {
    if a != [] {
      StringLeAntisymmetric(a[1..], b[1..]);
      assert a == [a[0]] + a[1..] && b == [b[0]] + b[1..];
    }
  }

  lemma StringLeReflexive()
    ensures forall a :: StringLe(a, a)
  {
    forall a ensures StringLe(a, a) {
      StringLeTotal(a, a);
    }
  }

  lemma StringLeAntisymmetricAll()
    ensures Antisymmetric(StringLe)
  {
    forall a, b | StringLe(a, b) && StringLe(b, a) ensures a == b {
      StringLeAntisymmetric(a, b);
    }
  }

  /** The ordinal order is a total preorder (indeed a total order). */
  lemma StringLeTotalPreorder()
    ensures TotalPreorder(StringLe)
  {
    forall a, b ensures StringLe(a, b) || StringLe(b, a) {
      StringLeTotal(a, b);
    }
    forall a, b, c | StringLe(a, b) && StringLe(b, c) ensures StringLe(a, c) {
      StringLeTransitive(a, b, c);
    }
  }
}
