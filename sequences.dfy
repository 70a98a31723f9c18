/**
 * Sequence helpers shared by the server's group-by and the client's month
 * buckets: first-occurrence de-duplication (the order a JavaScript object or
 * a SQL group-by hands its keys back in this model) and counting by key.
 */
module Sequences {

  datatype Option<+T> = None | Some(value: T)

  predicate Distinct<T(==)>(s: seq<T>) {
    forall i, j :: 0 <= i < j < |s| ==> s[i] != s[j]
  }

  /** The position of the first occurrence of `x` in `s`. */
  function FirstIndex<T(==)>(s: seq<T>, x: T): (i: nat)
    requires x in s
    ensures i < |s| && s[i] == x && x !in s[..i]
  {
    if s[0] == x then 0 else 1 + FirstIndex(s[1..], x)
  }

  /** The elements of `s` without repetitions, each where it first occurs. */
  function FirstOccurrences<T(==)>(s: seq<T>): (r: seq<T>)
    ensures |r| <= |s|
  {
    if s == [] then []
    else
      var p := FirstOccurrences(s[..|s| - 1]);
      if s[|s| - 1] in p then p else p + [s[|s| - 1]]
  }

  lemma FirstIndexOfPrefix<T>(s: seq<T>, n: nat, x: T)
    requires n <= |s| && x in s[..n]
    ensures FirstIndex(s, x) == FirstIndex(s[..n], x)
  {
    var i := FirstIndex(s[..n], x);
    assert s[..n][..i] == s[..i];
    assert s[..n][i] == s[i];
  }

  /**
   * FirstOccurrences lists every element of `s` exactly once, ordered by the
   * position where it first occurs.
   */
  lemma {:induction false} FirstOccurrencesSpec<T>(s: seq<T>)
    ensures Distinct(FirstOccurrences(s))
    ensures forall x :: x in FirstOccurrences(s) ==> x in s
    ensures forall x :: x in s ==> x in FirstOccurrences(s)
    ensures forall i, j :: 0 <= i < j < |FirstOccurrences(s)| ==>
              FirstIndex(s, FirstOccurrences(s)[i]) < FirstIndex(s, FirstOccurrences(s)[j])
  {
    if s != [] {
      var n := |s| - 1;
      var s' := s[..n];
      var x := s[n];
      FirstOccurrencesSpec(s');
      var p := FirstOccurrences(s');
      assert s == s' + [x];
      forall y | y in p ensures FirstIndex(s, y) == FirstIndex(s', y) {
        FirstIndexOfPrefix(s, n, y);
      }
      if x !in p {
        var r := p + [x];
        assert x !in s';
        assert FirstIndex(s, x) == n;
        forall i, j | 0 <= i < j < |r|
          ensures FirstIndex(s, r[i]) < FirstIndex(s, r[j])
        {
          assert r[i] == p[i];
          if j < |p| {
            assert r[j] == p[j];
          } else {
            assert FirstIndex(s', p[i]) < n;
          }
        }
      }
    }
  }

  /** How many elements of `xs` have key `k` under `f`. */
  function CountBy<T, K(==)>(xs: seq<T>, f: T -> K, k: K): (n: nat)
    ensures n <= |xs|
  {
    if xs == [] then 0
    else CountBy(xs[..|xs| - 1], f, k) + (if f(xs[|xs| - 1]) == k then 1 else 0)
  }

  /** How many elements of `xs` have a key in `keys` under `f`. */
  function CountIn<T, K(==)>(xs: seq<T>, f: T -> K, keys: seq<K>): (n: nat)
    ensures n <= |xs|
  {
    if xs == [] then 0
    else CountIn(xs[..|xs| - 1], f, keys) + (if f(xs[|xs| - 1]) in keys then 1 else 0)
  }

  /** The sum of CountBy over the keys of `labels`, one term per entry. */
  function SumBy<T, K(==)>(labels: seq<K>, xs: seq<T>, f: T -> K): nat
  {
    if labels == [] then 0 else CountBy(xs, f, labels[0]) + SumBy(labels[1..], xs, f)
  }

  function Occurrences<K(==)>(labels: seq<K>, k: K): nat
  {
    if labels == [] then 0 else (if labels[0] == k then 1 else 0) + Occurrences(labels[1..], k)
  }

  lemma {:induction false} OccurrencesOfDistinct<K>(labels: seq<K>, k: K)
    requires Distinct(labels)
    ensures Occurrences(labels, k) == if k in labels then 1 else 0
  {
    if labels != [] {
      assert Distinct(labels[1..]) by {
        forall i, j | 0 <= i < j < |labels[1..]| ensures labels[1..][i] != labels[1..][j] {
          assert labels[1..][i] == labels[i + 1] && labels[1..][j] == labels[j + 1];
        }
      }
      OccurrencesOfDistinct(labels[1..], k);
      if labels[0] == k {
        assert k !in labels[1..] by {
          forall i | 0 <= i < |labels[1..]| ensures labels[1..][i] != k {
            assert labels[1..][i] == labels[i + 1];
          }
        }
      } else {
        assert k in labels <==> k in labels[1..] by {
          assert labels == [labels[0]] + labels[1..];
        }
      }
    }
  }

  lemma {:induction false} SumBySnoc<T, K>(labels: seq<K>, xs: seq<T>, f: T -> K)
    requires xs != []
    ensures SumBy(labels, xs, f)
            == SumBy(labels, xs[..|xs| - 1], f) + Occurrences(labels, f(xs[|xs| - 1]))
  {
    if labels != [] {
      SumBySnoc(labels[1..], xs, f);
    }
  }

  /**
   * Summing the per-key counts over a list of distinct keys counts each
   * element whose key is listed exactly once.
   */
  lemma {:induction false} SumByDistinct<T, K>(labels: seq<K>, xs: seq<T>, f: T -> K)
    requires Distinct(labels)
    ensures SumBy(labels, xs, f) == CountIn(xs, f, labels)
  {
    if xs == [] {
      SumByEmpty(labels, xs, f);
    } else {
      SumByDistinct(labels, xs[..|xs| - 1], f);
      SumBySnoc(labels, xs, f);
      OccurrencesOfDistinct(labels, f(xs[|xs| - 1]));
    }
  }

  lemma {:induction false} SumByEmpty<T, K>(labels: seq<K>, xs: seq<T>, f: T -> K)
    requires xs == []
    ensures SumBy(labels, xs, f) == 0
  {
    if labels != [] {
      SumByEmpty(labels[1..], xs, f);
    }
  }

  /** When every key is listed, the counts add up to the whole sequence. */
  lemma CountInAll<T, K>(xs: seq<T>, f: T -> K, keys: seq<K>)
    requires forall x :: x in xs ==> f(x) in keys
    ensures CountIn(xs, f, keys) == |xs|
  {
    if xs != [] {
      assert forall x :: x in xs[..|xs| - 1] ==> x in xs;
      CountInAll(xs[..|xs| - 1], f, keys);
    }
  }

  lemma CountByPositive<T, K>(xs: seq<T>, f: T -> K, x: T)
    requires x in xs
    ensures CountBy(xs, f, f(x)) >= 1
  {
    if xs[|xs| - 1] != x {
      assert x in xs[..|xs| - 1] by {
        var k :| 0 <= k < |xs| && xs[k] == x;
        assert xs[..|xs| - 1][k] == x;
      }
      CountByPositive(xs[..|xs| - 1], f, x);
    }
  }

  lemma TakeSnoc<T>(s: seq<T>, i: nat)
    requires i < |s|
    ensures s[..i + 1] == s[..i] + [s[i]]
  {
  }

  /** The elements of `xs` with key `k`, in order (`filter`). */
  function Having<T, K(==)>(xs: seq<T>, f: T -> K, k: K): (r: seq<T>)
    ensures |r| == CountBy(xs, f, k)
    ensures forall x :: x in r ==> x in xs && f(x) == k
  {
    if xs == [] then []
    else
      var x := xs[|xs| - 1];
      Having(xs[..|xs| - 1], f, k) + (if f(x) == k then [x] else [])
  }

  lemma CountBySnoc<T, K>(xs: seq<T>, x: T, f: T -> K, k: K)
    ensures CountBy(xs + [x], f, k) == CountBy(xs, f, k) + (if f(x) == k then 1 else 0)
  {
    assert (xs + [x])[..|xs|] == xs;
  }

  lemma HavingSnoc<T, K>(xs: seq<T>, x: T, f: T -> K, k: K)
    ensures Having(xs + [x], f, k) == Having(xs, f, k) + (if f(x) == k then [x] else [])
  {
    assert (xs + [x])[..|xs|] == xs;
  }

  lemma FirstOccurrencesSnoc<T>(xs: seq<T>, x: T)
    ensures FirstOccurrences(xs + [x])
            == if x in FirstOccurrences(xs) then FirstOccurrences(xs) else FirstOccurrences(xs) + [x]
  {
    assert (xs + [x])[..|xs|] == xs;
  }

  /** No element has key `k`: the count is zero. */
  lemma CountByAbsent<T, K>(xs: seq<T>, f: T -> K, k: K)
    requires forall x :: x in xs ==> f(x) != k
    ensures CountBy(xs, f, k) == 0
  {
    if xs != [] {
      assert forall x :: x in xs[..|xs| - 1] ==> x in xs;
      CountByAbsent(xs[..|xs| - 1], f, k);
    }
  }

  /** One count per label, in the labels' order (`labels.map(...)`). */
  function Counts<T, K(==)>(labels: seq<K>, xs: seq<T>, f: T -> K): (r: seq<nat>)
    ensures |r| == |labels|
    ensures forall i :: 0 <= i < |labels| ==> r[i] == CountBy(xs, f, labels[i])
  {
    if labels == [] then [] else [CountBy(xs, f, labels[0])] + Counts(labels[1..], xs, f)
  }

  function Total(ns: seq<nat>): nat {
    if ns == [] then 0 else ns[0] + Total(ns[1..])
  }

  lemma {:induction false} TotalOfCounts<T, K>(labels: seq<K>, xs: seq<T>, f: T -> K)
    ensures Total(Counts(labels, xs, f)) == SumBy(labels, xs, f)
  {
    if labels != [] {
      assert Counts(labels, xs, f)[1..] == Counts(labels[1..], xs, f);
      TotalOfCounts(labels[1..], xs, f);
    }
  }

  /** The first element of `xs` whose key is `k` (`find`). */
  function FindBy<T(==), K(==)>(xs: seq<T>, f: T -> K, k: K): (r: Option<T>)
    ensures r.None? <==> forall x :: x in xs ==> f(x) != k
    ensures r.Some? ==> exists i :: 0 <= i < |xs| && xs[i] == r.value && f(xs[i]) == k
                                   && forall j :: 0 <= j < i ==> f(xs[j]) != k
  {
    if xs == [] then None
    else if f(xs[0]) == k then
      assert xs[0] == xs[0];
      Some(xs[0])
    else
      var r := FindBy(xs[1..], f, k);
      if r.Some? then
        var i :| 0 <= i < |xs[1..]| && xs[1..][i] == r.value && f(xs[1..][i]) == k
                 && forall j :: 0 <= j < i ==> f(xs[1..][j]) != k;
        assert xs[i + 1] == r.value;
        assert forall j :: 0 <= j < i + 1 ==> f(xs[j]) != k by {
          forall j | 0 <= j < i + 1 ensures f(xs[j]) != k {
            if j > 0 {
              assert xs[j] == xs[1..][j - 1];
            }
          }
        }
        r
      else
        assert forall x :: x in xs ==> x == xs[0] || x in xs[1..];
        r
  }

  /** With distinct keys, `find` by the key of an element returns that element. */
  lemma FindByDistinct<T, K>(xs: seq<T>, f: T -> K, x: T)
    requires forall i, j :: 0 <= i < j < |xs| ==> f(xs[i]) != f(xs[j])
    requires x in xs
    ensures FindBy(xs, f, f(x)) == Some(x)
  {
    var r := FindBy(xs, f, f(x));
    var k :| 0 <= k < |xs| && xs[k] == x;
    var i :| 0 <= i < |xs| && xs[i] == r.value && f(xs[i]) == f(x)
             && forall j :: 0 <= j < i ==> f(xs[j]) != f(x);
    assert i == k;
  }
}
