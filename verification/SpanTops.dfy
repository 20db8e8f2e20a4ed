/** The top-level spans of a trace as the conversion collects them: request by request, thread by thread. */
module SpanTops {
  import opened Wrappers
  import opened Sums
  import opened SpanForest

  /** The parent of the parent. */
  ghost function Grand(spans: seq<Span>, v: nat): Option<nat> {
    if v < |spans| && Parent(spans, v).Some? then Parent(spans, Parent(spans, v).value) else None
  }

  /** Span `v` stands directly below a thread span of a request. */
  ghost predicate IsTop(spans: seq<Span>, v: nat) {
    Grand(spans, v).Some? && spans[Grand(spans, v).value].isRequest
  }

  /** All of them, each once, in any order. */
  ghost predicate IsTopList(spans: seq<Span>, vs: seq<nat>) {
    forall v: nat :: Occurrences(vs, v) == One(IsTop(spans, v))
  }

  /** An increasing list holds its members once. */
  lemma {:induction false} OnceInIncreasing(s: seq<nat>, x: nat)
    requires forall i, j :: 0 <= i < j < |s| ==> s[i] < s[j]
    ensures Occurrences(s, x) == One(x in s)
  {
    if s != [] {
      var front := s[..|s| - 1];
      OnceInIncreasing(front, x);
      assert s == front + [s[|s| - 1]];
    }
  }

  /** The spans below the first `n` of some threads, thread by thread. */
  ghost function BelowThreads(spans: seq<Span>, threads: seq<nat>, n: nat): seq<nat>
    requires n <= |threads|
  {
    if n == 0 then [] else BelowThreads(spans, threads, n - 1) + Children(spans, threads[n - 1])
  }

  /** The spans below the threads of the first `n` requests, request by request. */
  ghost function BelowRoots(spans: seq<Span>, n: nat): seq<nat>
    requires n <= |Roots(spans)|
  {
    if n == 0 then []
    else
      var threads := Children(spans, Roots(spans)[n - 1]);
      BelowRoots(spans, n - 1) + BelowThreads(spans, threads, |threads|)
  }

  ghost predicate HasParentIn(spans: seq<Span>, s: seq<nat>, v: nat) {
    v < |spans| && Parent(spans, v).Some? && Parent(spans, v).value in s
  }

  /** One entry more of an increasing list. */
  lemma OneMoreMember(s: seq<nat>, n: nat, x: nat)
    requires 0 < n <= |s| && forall i, j :: 0 <= i < j < |s| ==> s[i] < s[j]
    ensures One(x in s[..n]) == One(x in s[..n - 1]) + One(x == s[n - 1])
  {
    assert s[..n] == s[..n - 1] + [s[n - 1]];
  }

  lemma OneMoreThread(spans: seq<Span>, threads: seq<nat>, n: nat, v: nat)
    requires 0 < n <= |threads| && forall i, j :: 0 <= i < j < |threads| ==> threads[i] < threads[j]
    ensures One(HasParentIn(spans, threads[..n], v)) ==
              One(HasParentIn(spans, threads[..n - 1], v)) + One(v in Children(spans, threads[n - 1]))
  {
    if v < |spans| && Parent(spans, v).Some? { OneMoreMember(threads, n, Parent(spans, v).value); }
  }

  lemma {:induction false} BelowThreadsOnce(spans: seq<Span>, threads: seq<nat>, n: nat, v: nat)
    requires n <= |threads| && forall i, j :: 0 <= i < j < |threads| ==> threads[i] < threads[j]
    ensures Occurrences(BelowThreads(spans, threads, n), v) == One(HasParentIn(spans, threads[..n], v))
  {
    if n > 0 {
      BelowThreadsOnce(spans, threads, n - 1, v);
      OneMoreThread(spans, threads, n, v);
      OnceInIncreasing(Children(spans, threads[n - 1]), v);
      OccurrencesConcat(BelowThreads(spans, threads, n - 1), Children(spans, threads[n - 1]), v);
    }
  }

  ghost predicate HasGrandIn(spans: seq<Span>, s: seq<nat>, v: nat) {
    Grand(spans, v).Some? && Grand(spans, v).value in s
  }

  lemma OneMoreRoot(spans: seq<Span>, n: nat, v: nat)
    requires 0 < n <= |Roots(spans)|
    ensures One(HasGrandIn(spans, Roots(spans)[..n], v)) ==
              One(HasGrandIn(spans, Roots(spans)[..n - 1], v)) +
              One(HasParentIn(spans, Children(spans, Roots(spans)[n - 1]), v))
  {
    if Grand(spans, v).Some? { OneMoreMember(Roots(spans), n, Grand(spans, v).value); }
  }

  lemma RequestOnce(spans: seq<Span>, threads: seq<nat>, v: nat)
    requires forall i, j :: 0 <= i < j < |threads| ==> threads[i] < threads[j]
    ensures Occurrences(BelowThreads(spans, threads, |threads|), v) == One(HasParentIn(spans, threads, v))
  {
    BelowThreadsOnce(spans, threads, |threads|, v);
    assert threads[..|threads|] == threads;
  }

  lemma {:induction false} BelowRootsOnce(spans: seq<Span>, n: nat, v: nat)
    requires n <= |Roots(spans)|
    ensures Occurrences(BelowRoots(spans, n), v) == One(HasGrandIn(spans, Roots(spans)[..n], v))
  {
    if n > 0 {
      var threads := Children(spans, Roots(spans)[n - 1]);
      BelowRootsOnce(spans, n - 1, v);
      OneMoreRoot(spans, n, v);
      RequestOnce(spans, threads, v);
      OccurrencesConcat(BelowRoots(spans, n - 1), BelowThreads(spans, threads, |threads|), v);
    }
  }

  /** What the walk over requests, threads and their children lists is all top-level spans, each once. */
  lemma WalkListsTops(spans: seq<Span>)
    ensures IsTopList(spans, BelowRoots(spans, |Roots(spans)|))
  {
    var roots := Roots(spans);
    assert roots[..|roots|] == roots;
    forall v: nat ensures Occurrences(BelowRoots(spans, |roots|), v) == One(IsTop(spans, v)) {
      BelowRootsOnce(spans, |roots|, v);
    }
  }

  /** Sorting such a list leaves it one. */
  lemma ReorderedTops(spans: seq<Span>, vs: seq<nat>, sorted: seq<nat>)
    requires IsTopList(spans, vs) && multiset(vs) == multiset(sorted)
    ensures IsTopList(spans, sorted)
  {
    forall v: nat ensures Occurrences(sorted, v) == One(IsTop(spans, v)) {
      OccurrencesCount(vs, v);
      OccurrencesCount(sorted, v);
      assert Occurrences(vs, v) == One(IsTop(spans, v));
    }
  }

  ghost function TopPath(spans: seq<Span>, v: nat): seq<nat>
    requires IsTop(spans, v)
  {
    [Grand(spans, v).value, Parent(spans, v).value, v]
  }

  lemma TopPathIsPath(spans: seq<Span>, v: nat)
    requires IsTop(spans, v)
    ensures IsPath(spans, TopPath(spans, v)) && Last(TopPath(spans, v)) == v
  {
  }

  lemma OnlyTopPath(spans: seq<Span>, q: seq<nat>)
    requires IsPath(spans, q) && |q| == 3
    ensures IsTop(spans, q[2]) && TopPath(spans, q[2]) == q
  {
    assert Parent(spans, q[2]) == Some(q[1]) && Parent(spans, q[1]) == Some(q[0]);
  }

  lemma InTopList(spans: seq<Span>, vs: seq<nat>, k: nat)
    requires IsTopList(spans, vs) && k < |vs|
    ensures IsTop(spans, vs[k]) && forall j: nat :: j < k ==> vs[j] != vs[k]
  {
    OccurrencesMember(vs, k);
    assert Occurrences(vs, vs[k]) == One(IsTop(spans, vs[k]));
    forall j: nat | j < k ensures vs[j] != vs[k] {
      if vs[j] == vs[k] { OccurrencesTwice(vs, j, k); }
    }
  }

  lemma FoundInTopList(spans: seq<Span>, vs: seq<nat>, v: nat)
    requires IsTopList(spans, vs) && IsTop(spans, v)
    ensures v in vs
  {
    assert Occurrences(vs, v) == One(IsTop(spans, v));
    OccurrencesCount(vs, v);
  }

  /** The paths to the spans of such a list. */
  lemma TopPaths(spans: seq<Span>, vs: seq<nat>) returns (tops: seq<seq<nat>>)
    requires IsTopList(spans, vs)
    ensures IsTops(spans, tops) && |tops| == |vs|
    ensures forall k :: 0 <= k < |vs| ==> |tops[k]| == 3 && Last(tops[k]) == tops[k][2] == vs[k]
  {
    forall k: nat | k < |vs| ensures IsTop(spans, vs[k]) && forall j: nat :: j < k ==> vs[j] != vs[k] {
      InTopList(spans, vs, k);
    }
    tops := seq(|vs|, k requires 0 <= k < |vs| => TopPath(spans, vs[k]));
    forall k | 0 <= k < |tops| ensures IsPath(spans, tops[k]) { TopPathIsPath(spans, vs[k]); }
    forall i, j | 0 <= i < j < |tops| ensures tops[i] != tops[j] { assert tops[i][2] == vs[i] && tops[j][2] == vs[j]; }
    forall q | IsPath(spans, q) && |q| == 3 ensures q in tops {
      OnlyTopPath(spans, q);
      FoundInTopList(spans, vs, q[2]);
      var k :| 0 <= k < |vs| && vs[k] == q[2];
      assert tops[k] == q;
    }
  }

  // ---------- the passes over all of them ----------

  /** How often the pass over top-level span `v` visits span `u`. */
  ghost function VisitsAt(spans: seq<Span>, v: nat, u: nat): nat {
    if IsTop(spans, v) then
      TopPathIsPath(spans, v);
      Occurrences(Visits(spans, TopPath(spans, v)), u)
    else 0
  }

  /** How often the passes over some top-level spans do. */
  ghost function VisitsBelow(spans: seq<Span>, vs: seq<nat>, u: nat): nat {
    if vs == [] then 0
    else VisitsBelow(spans, vs[..|vs| - 1], u) + VisitsAt(spans, vs[|vs| - 1], u)
  }

  lemma {:induction false} VisitsBelowConcat(spans: seq<Span>, a: seq<nat>, b: seq<nat>, u: nat)
    ensures VisitsBelow(spans, a + b, u) == VisitsBelow(spans, a, u) + VisitsBelow(spans, b, u)
  {
    if b == [] {
      assert a + b == a;
    } else {
      var front := b[..|b| - 1];
      assert (a + b)[..|a + b| - 1] == a + front;
      VisitsBelowConcat(spans, a, front, u);
    }
  }

  lemma VisitsBelowOne(spans: seq<Span>, v: nat, u: nat)
    ensures VisitsBelow(spans, [v], u) == VisitsAt(spans, v, u)
  {
    assert [v][..0] == [];
  }

  /** The pass over `v` visits the end of a long path once if `v` is on the path, and never otherwise. */
  lemma VisitsOnPath(spans: seq<Span>, q: seq<nat>, v: nat)
    requires IsPath(spans, q) && |q| >= 3
    ensures VisitsAt(spans, v, Last(q)) == One(v == q[2])
  {
    var u := Last(q);
    PathPrefix(spans, q, 3);
    OnlyTopPath(spans, q[..3]);
    if IsTop(spans, v) {
      var p := TopPath(spans, v);
      TopPathIsPath(spans, v);
      VisitsOnce(spans, p, u);
      if v == q[2] {
        assert p <= q;
      }
      if Under(spans, p, u) {
        var r :| IsPath(spans, r) && p <= r && Last(r) == u;
        PathsAreUnique(spans, q, r);
        assert p[2] == q[2];
      }
    }
  }

  lemma BelowTopIsDeep(spans: seq<Span>, v: nat, u: nat)
    requires IsTop(spans, v) && Under(spans, TopPath(spans, v), u)
    ensures Deep(spans, [], u)
  {
    var r :| IsPath(spans, r) && TopPath(spans, v) <= r && Last(r) == u;
    assert [] <= r;
  }

  lemma ShallowIsNotVisited(spans: seq<Span>, v: nat, u: nat)
    requires !Deep(spans, [], u)
    ensures VisitsAt(spans, v, u) == 0
  {
    if IsTop(spans, v) {
      TopPathIsPath(spans, v);
      VisitsOnce(spans, TopPath(spans, v), u);
      if Under(spans, TopPath(spans, v), u) { BelowTopIsDeep(spans, v, u); }
    }
  }

  lemma {:induction false} VisitsOfPathEnd(spans: seq<Span>, vs: seq<nat>, q: seq<nat>)
    requires IsPath(spans, q) && |q| >= 3
    ensures VisitsBelow(spans, vs, Last(q)) == Occurrences(vs, q[2])
  {
    if vs != [] {
      VisitsOfPathEnd(spans, vs[..|vs| - 1], q);
      VisitsOnPath(spans, q, vs[|vs| - 1]);
    }
  }

  lemma {:induction false} VisitsOfShallow(spans: seq<Span>, vs: seq<nat>, u: nat)
    requires !Deep(spans, [], u)
    ensures VisitsBelow(spans, vs, u) == 0
  {
    if vs != [] {
      VisitsOfShallow(spans, vs[..|vs| - 1], u);
      ShallowIsNotVisited(spans, vs[|vs| - 1], u);
    }
  }

  /**
   For any parent ids, one pass over all top-level spans visits each span that lies two levels or more below
   a request exactly once, and no other span.
   */
  lemma AllVisitedOnce(spans: seq<Span>, vs: seq<nat>, u: nat)
    requires IsTopList(spans, vs)
    ensures VisitsBelow(spans, vs, u) == One(Deep(spans, [], u))
  {
    if q :| IsPath(spans, q) && [] <= q && |q| >= 3 && Last(q) == u {
      VisitsOfPathEnd(spans, vs, q);
      PathPrefix(spans, q, 3);
      OnlyTopPath(spans, q[..3]);
      assert Occurrences(vs, q[2]) == One(IsTop(spans, q[2]));
    } else {
      VisitsOfShallow(spans, vs, u);
    }
  }

  lemma BelowThreadIsTop(spans: seq<Span>, r: nat, t: nat, v: nat)
    requires r < |spans| && spans[r].isRequest && t in Children(spans, r) && v in Children(spans, t)
    ensures IsTop(spans, v)
  {
  }
}
