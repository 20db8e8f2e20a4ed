/** Finite sums and the two list edits that the queue models share. */
module Sums {

  /** The sum of a list of integers. */
  function Sum(s: seq<int>): int {
    if s == [] then 0 else s[0] + Sum(s[1..])
  }

  lemma {:induction false} SumConcat(a: seq<int>, b: seq<int>)
    ensures Sum(a + b) == Sum(a) + Sum(b)
  {
    if a == [] {
      assert a + b == b;
    } else {
      assert (a + b)[1..] == a[1..] + b;
      SumConcat(a[1..], b);
    }
  }

  /** Overwriting one entry shifts the sum by the difference of the two values. */
  lemma {:induction false} SumUpdate(s: seq<int>, k: nat, v: int)
    requires k < |s|
    ensures Sum(s[k := v]) == Sum(s) - s[k] + v
  {
    if k == 0 {
      assert s[k := v][1..] == s[1..];
    } else {
      assert s[k := v][1..] == s[1..][k - 1 := v];
      SumUpdate(s[1..], k - 1, v);
    }
  }

  /** A pointwise bound carries over to the sums, and equal sums force equal lists. */
  lemma {:induction false} SumPointwise(a: seq<int>, b: seq<int>)
    requires |a| == |b|
    requires forall i :: 0 <= i < |a| ==> a[i] <= b[i]
    ensures Sum(a) <= Sum(b)
    ensures Sum(a) == Sum(b) ==> a == b
  {
    if a != [] {
      SumPointwise(a[1..], b[1..]);
      if Sum(a) == Sum(b) {
        assert a[0] == b[0] && a[1..] == b[1..];
        assert a == [a[0]] + a[1..] && b == [b[0]] + b[1..];
      }
    }
  }

  /** The list without its entry `k`, as Python's `list.pop(k)` leaves it. */
  function RemoveAt<T>(s: seq<T>, k: nat): (r: seq<T>)
    requires k < |s|
    ensures |r| == |s| - 1
  {
    s[..k] + s[k + 1..]
  }

  function One(b: bool): nat {
    if b then 1 else 0
  }

  /** How often `x` occurs in `s`. */
  function Occurrences<T(==)>(s: seq<T>, x: T): nat {
    if s == [] then 0 else Occurrences(s[..|s| - 1], x) + One(s[|s| - 1] == x)
  }

  lemma {:induction false} OccurrencesConcat<T>(a: seq<T>, b: seq<T>, x: T)
    ensures Occurrences(a + b, x) == Occurrences(a, x) + Occurrences(b, x)
  {
    if b == [] {
      assert a + b == a;
    } else {
      assert (a + b)[..|a + b| - 1] == a + b[..|b| - 1];
      OccurrencesConcat(a, b[..|b| - 1], x);
    }
  }

  lemma OccurrencesPush<T>(a: seq<T>, y: T, x: T)
    ensures Occurrences(a + [y], x) == Occurrences(a, x) + One(y == x)
  {
    assert (a + [y])[..|a|] == a;
  }

  lemma {:induction false} OccurrencesRemove<T>(a: seq<T>, k: nat, x: T)
    requires k < |a|
    ensures Occurrences(a, x) == Occurrences(RemoveAt(a, k), x) + One(a[k] == x)
  {
    var n := |a| - 1;
    if k == n {
      assert RemoveAt(a, k) == a[..n];
    } else {
      OccurrencesRemove(a[..n], k, x);
      assert RemoveAt(a, k)[..n - 1] == RemoveAt(a[..n], k);
    }
  }

  lemma {:induction false} OccurrencesCount<T>(a: seq<T>, x: T)
    ensures Occurrences(a, x) == multiset(a)[x]
  {
    if a != [] {
      OccurrencesCount(a[..|a| - 1], x);
      assert a == a[..|a| - 1] + [a[|a| - 1]];
    }
  }

  lemma OccurrencesTwice<T>(a: seq<T>, i: nat, j: nat)
    requires i < j < |a| && a[i] == a[j]
    ensures Occurrences(a, a[i]) >= 2
  {
    OccurrencesRemove(a, i, a[i]);
    assert RemoveAt(a, i)[j - 1] == a[j];
    OccurrencesMember(RemoveAt(a, i), j - 1);
  }

  lemma OccurrencesMember<T>(a: seq<T>, k: nat)
    requires k < |a|
    ensures Occurrences(a, a[k]) > 0
  {
    OccurrencesRemove(a, k, a[k]);
  }

  lemma {:induction false} SumZero(s: seq<int>)
    requires forall i :: 0 <= i < |s| ==> s[i] == 0
    ensures Sum(s) == 0
  {
    if s != [] {
      SumZero(s[1..]);
    }
  }
}
