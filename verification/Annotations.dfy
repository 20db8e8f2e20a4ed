/**
 CPU annotations of a profiler trace: the innermost range around a launch, found by bisection and a bounded
 look back, and the CPU time of the top-level P1 ranges of a step.
 */
module Annotations {
  import opened Wrappers
  import opened BusySweep

  datatype Range = Range(start: int, end: int)

  const LOOK_BACK: nat := 400

  // ---------- the innermost range ----------

  /** `list.sort()`: by start, then by end. */
  ghost predicate Sorted(lst: seq<Range>) {
    forall i, j :: 0 <= i < j < |lst| ==>
      lst[i].start < lst[j].start || (lst[i].start == lst[j].start && lst[i].end <= lst[j].end)
  }

  predicate Contains(r: Range, ts: int) {
    r.start <= ts <= r.end
  }

  predicate Within(inner: Range, outer: Range) {
    outer.start <= inner.start && inner.end <= outer.end
  }

  /** Ranges are nested or strictly disjoint. */
  ghost predicate Laminar(lst: seq<Range>) {
    forall i, j :: 0 <= i < |lst| && 0 <= j < |lst| ==>
      Within(lst[i], lst[j]) || Within(lst[j], lst[i]) || lst[i].end < lst[j].start || lst[j].end < lst[i].start
  }

  /** `bisect_right` with `(ts, inf, "~")`: how many ranges have started by `ts`. */
  function Started(lst: seq<Range>, ts: int, i: nat): (r: nat)
    requires i <= |lst|
    ensures i <= r <= |lst|
    ensures forall j :: i <= j < r ==> lst[j].start <= ts
    ensures r < |lst| ==> lst[r].start > ts
    decreases |lst| - i
  {
    if i == |lst| || lst[i].start > ts then i else Started(lst, ts, i + 1)
  }

  /** `max` by start over the candidates in `[lo, hi)`: the first of those with the largest start. */
  function Latest(lst: seq<Range>, ts: int, lo: nat, hi: nat): (r: Option<nat>)
    requires lo <= hi <= |lst|
    ensures r.Some? ==> lo <= r.value < hi && Contains(lst[r.value], ts)
    ensures r.Some? ==> forall j :: lo <= j < hi && Contains(lst[j], ts) ==> lst[j].start <= lst[r.value].start
    ensures r.Some? ==> forall j :: lo <= j < r.value && Contains(lst[j], ts) ==> lst[j].start < lst[r.value].start
    ensures r.None? ==> forall j :: lo <= j < hi ==> !Contains(lst[j], ts)
    decreases hi - lo
  {
    if lo == hi then None
    else
      var front := Latest(lst, ts, lo, hi - 1);
      if Contains(lst[hi - 1], ts) && (front.None? || lst[hi - 1].start > lst[front.value].start) then Some(hi - 1)
      else front
  }

  /** The position of the range `enclosing` answers. */
  function Enclosing(lst: seq<Range>, ts: int): (r: Option<nat>)
    ensures r.Some? ==> r.value < |lst| && Contains(lst[r.value], ts)
  {
    var i := Started(lst, ts, 0);
    Latest(lst, ts, if i < LOOK_BACK then 0 else i - LOOK_BACK, i)
  }

  /** The same without the bound on the look back. */
  function EnclosingUnbounded(lst: seq<Range>, ts: int): Option<nat> {
    Latest(lst, ts, 0, Started(lst, ts, 0))
  }

  lemma ContainingHasStarted(lst: seq<Range>, ts: int, j: nat)
    requires Sorted(lst) && j < |lst| && Contains(lst[j], ts)
    ensures j < Started(lst, ts, 0)
  {
  }

  /** In a laminar list, the first range with the latest start lies inside every other containing range. */
  lemma LatestIsInnermost(lst: seq<Range>, ts: int, k: nat, j: nat)
    requires Sorted(lst) && Laminar(lst) && k < |lst| && j < |lst| && Contains(lst[k], ts) && Contains(lst[j], ts)
    requires lst[j].start <= lst[k].start && (j < k ==> lst[j].start < lst[k].start)
    ensures Within(lst[k], lst[j])
  {
    assert Within(lst[k], lst[j]) || Within(lst[j], lst[k]);
    if j > k { assert lst[j].start == lst[k].start && lst[k].end <= lst[j].end; }
  }

  /** Without the bound, the answer is the innermost range, equal starts included. */
  lemma UnboundedIsInnermost(lst: seq<Range>, ts: int, j: nat)
    requires Sorted(lst) && Laminar(lst) && j < |lst| && Contains(lst[j], ts)
    ensures var r := EnclosingUnbounded(lst, ts);
      r.Some? && r.value < |lst| && Contains(lst[r.value], ts) && Within(lst[r.value], lst[j])
  {
    ContainingHasStarted(lst, ts, j);
    var r := EnclosingUnbounded(lst, ts);
    assert r.Some?;
    LatestIsInnermost(lst, ts, r.value, j);
  }

  /** Range `k` contains `ts` and lies within every range that does. */
  ghost predicate Innermost(lst: seq<Range>, ts: int, k: nat) {
    && k < |lst| && Contains(lst[k], ts)
    && forall j :: 0 <= j < |lst| && Contains(lst[j], ts) ==> Within(lst[k], lst[j])
  }

  /** The innermost ranges in the slice are copies of the answer. */
  lemma SliceFindsInnermost(lst: seq<Range>, ts: int, k: nat)
    requires Sorted(lst) && Laminar(lst) && Innermost(lst, ts, k) && k >= Started(lst, ts, 0) - LOOK_BACK
    ensures Enclosing(lst, ts).Some? && lst[Enclosing(lst, ts).value] == lst[k]
  {
    ContainingHasStarted(lst, ts, k);
    var r := Enclosing(lst, ts);
    assert r.Some?;
    assert lst[k].start <= lst[r.value].start && Within(lst[k], lst[r.value]);
    LatestIsInnermost(lst, ts, r.value, k);
  }

  /**
   The exact reach of `enclosing`: it answers an innermost range if and only if one is among the last 400 ranges
   that have started.
   */
  lemma EnclosingExact(lst: seq<Range>, ts: int)
    requires Sorted(lst) && Laminar(lst)
    ensures (Enclosing(lst, ts).Some? && Innermost(lst, ts, Enclosing(lst, ts).value)) <==>
            exists k: nat :: Started(lst, ts, 0) - LOOK_BACK <= k < |lst| && Innermost(lst, ts, k)
  {
    if k: nat :| Started(lst, ts, 0) - LOOK_BACK <= k < |lst| && Innermost(lst, ts, k) {
      SliceFindsInnermost(lst, ts, k);
    }
  }

  /** In particular: when all containing ranges are within the slice, the answer is the innermost one. */
  lemma EnclosingIsInnermost(lst: seq<Range>, ts: int, j: nat)
    requires Sorted(lst) && Laminar(lst) && j < |lst| && Contains(lst[j], ts)
    requires forall k :: 0 <= k < |lst| && Contains(lst[k], ts) ==> k >= Started(lst, ts, 0) - LOOK_BACK
    ensures var r := Enclosing(lst, ts); r.Some? && Within(lst[r.value], lst[j])
  {
    UnboundedIsInnermost(lst, ts, j);
    var k := EnclosingUnbounded(lst, ts).value;
    forall m | 0 <= m < |lst| && Contains(lst[m], ts) ensures Within(lst[k], lst[m]) {
      UnboundedIsInnermost(lst, ts, m);
    }
    SliceFindsInnermost(lst, ts, k);
  }

  /** A long range with `n` short ones in it, one after the other. */
  function LongAround(n: nat, end: int): seq<Range> {
    [Range(0, end)] + seq(n, i => Range(2 * i + 2, 2 * i + 3))
  }

  lemma LongAroundIsProper(n: nat, end: int)
    requires end > 2 * n + 1
    ensures Sorted(LongAround(n, end)) && Laminar(LongAround(n, end))
  {
  }

  lemma AllStarted(lst: seq<Range>, ts: int, i: nat)
    requires i <= |lst| && forall j :: i <= j < |lst| ==> lst[j].start <= ts
    ensures Started(lst, ts, i) == |lst|
  {
  }

  /** Where the limit bites: behind 400 or more finished short ranges the range around the instant is not found. */
  lemma LimitMissesTheRange(n: nat, end: int, ts: int)
    requires n >= LOOK_BACK && 2 * n + 1 < ts <= end
    ensures var lst := LongAround(n, end);
      Sorted(lst) && Laminar(lst) && Innermost(lst, ts, 0) && Enclosing(lst, ts) == None
  {
    var lst := LongAround(n, end);
    LongAroundIsProper(n, end);
    AllStarted(lst, ts, 0);
  }

  // ---------- top-level P1 ranges ----------

  /** Some other P1 range of the step encloses this one. */
  predicate Nested(top: seq<Range>, i: nat)
    requires i < |top|
  {
    exists j :: 0 <= j < |top| && j != i && Within(top[i], top[j])
  }

  /** The length two ranges share. */
  function Shared(q: Range, x: Range): int {
    if q.start < x.end && q.end > x.start
    then Min(q.end, x.end) - (if q.start < x.start then x.start else q.start) else 0
  }

  /** Time spent in the first `n` synchronisation calls inside range `x`. */
  function WaitUpTo(syncs: seq<Range>, x: Range, n: nat): int
    requires n <= |syncs|
  {
    if n == 0 then 0 else WaitUpTo(syncs, x, n - 1) + Shared(syncs[n - 1], x)
  }

  function Wait(syncs: seq<Range>, x: Range): int {
    WaitUpTo(syncs, x, |syncs|)
  }

  /** Synchronisation calls of one thread do not overlap. */
  ghost predicate Separate(syncs: seq<Range>) {
    && (forall i :: 0 <= i < |syncs| ==> syncs[i].start <= syncs[i].end)
    && forall i, j :: 0 <= i < j < |syncs| ==> syncs[i].end <= syncs[j].start || syncs[j].end <= syncs[i].start
  }

  /** The instants two ranges share. */
  ghost function Both(q: Range, x: Range): set<int> {
    set p | p in Span(q.start, q.end) && Inside(x.start, p, x.end)
  }

  lemma SharedSize(q: Range, x: Range)
    requires q.start <= q.end && x.start <= x.end
    ensures |Both(q, x)| == Shared(q, x)
  {
    var lo, hi := if q.start < x.start then x.start else q.start, Min(q.end, x.end);
    if lo < hi {
      SpanSize(lo, hi);
      assert Both(q, x) == Span(lo, hi);
    } else {
      assert Both(q, x) == {};
    }
  }

  /** The instants of `x` that lie in one of the first `n` synchronisation calls. */
  ghost function Waited(syncs: seq<Range>, x: Range, n: nat): set<int>
    requires n <= |syncs|
  {
    set i, p | 0 <= i < n && p in Span(syncs[i].start, syncs[i].end) && Inside(x.start, p, x.end) :: p
  }

  /** Call `n` shares no instant with the calls before it. */
  ghost predicate Fresh(syncs: seq<Range>, x: Range, n: nat)
    requires n < |syncs|
  {
    syncs[n].start <= syncs[n].end && Waited(syncs, x, n) !! Both(syncs[n], x)
  }

  lemma NextFresh(syncs: seq<Range>, x: Range, n: nat)
    requires Separate(syncs) && n < |syncs|
    ensures Fresh(syncs, x, n)
  {
  }

  lemma WaitedNext(syncs: seq<Range>, x: Range, n: nat)
    requires n < |syncs|
    ensures Waited(syncs, x, n + 1) == Waited(syncs, x, n) + Both(syncs[n], x)
  {
  }

  lemma WaitStep(syncs: seq<Range>, x: Range, n: nat)
    requires n < |syncs| && x.start <= x.end && Fresh(syncs, x, n)
    requires WaitUpTo(syncs, x, n) == |Waited(syncs, x, n)|
    ensures WaitUpTo(syncs, x, n + 1) == |Waited(syncs, x, n + 1)|
  {
    WaitedNext(syncs, x, n);
    SharedSize(syncs[n], x);
    UnionSize(Waited(syncs, x, n), Both(syncs[n], x));
  }

  lemma {:induction false} WaitUpToIsOverlap(syncs: seq<Range>, x: Range, n: nat)
    requires x.start <= x.end && n <= |syncs| && forall i :: 0 <= i < n ==> Fresh(syncs, x, i)
    ensures WaitUpTo(syncs, x, n) == |Waited(syncs, x, n)|
  {
    if n > 0 {
      WaitUpToIsOverlap(syncs, x, n - 1);
      WaitStep(syncs, x, n - 1);
    }
  }

  /** The wait of a range is the number of its instants that lie in a synchronisation call. */
  lemma WaitIsOverlap(syncs: seq<Range>, x: Range)
    requires Separate(syncs) && x.start <= x.end
    ensures Wait(syncs, x) == |Waited(syncs, x, |syncs|)|
  {
    forall i | 0 <= i < |syncs| ensures Fresh(syncs, x, i) { NextFresh(syncs, x, i); }
    WaitUpToIsOverlap(syncs, x, |syncs|);
  }

  /** The summed length of the first `n` ranges that are not nested. */
  function KeptLength(top: seq<Range>, n: nat): int
    requires n <= |top|
  {
    if n == 0 then 0
    else KeptLength(top, n - 1) + if Nested(top, n - 1) then 0 else top[n - 1].end - top[n - 1].start
  }

  function KeptWait(top: seq<Range>, syncs: seq<Range>, n: nat): int
    requires n <= |top|
  {
    if n == 0 then 0
    else KeptWait(top, syncs, n - 1) + if Nested(top, n - 1) then 0 else Wait(syncs, top[n - 1])
  }

  /** The instants covered by the first `n` ranges. */
  ghost function Points(top: seq<Range>, n: nat): set<int>
    requires n <= |top|
  {
    set i, x | 0 <= i < n && x in Span(top[i].start, top[i].end) :: x
  }

  /** The instants covered by the first `n` ranges that are not nested. */
  ghost function KeptPoints(top: seq<Range>, n: nat): set<int>
    requires n <= |top|
  {
    set i, x | 0 <= i < n && !Nested(top, i) && x in Span(top[i].start, top[i].end) :: x
  }

  /** P1 ranges of one thread: nested or disjoint, none of negative length. */
  ghost predicate Proper(top: seq<Range>) {
    && (forall i :: 0 <= i < |top| ==> top[i].start <= top[i].end)
    && forall i, j :: 0 <= i < |top| && 0 <= j < |top| ==>
         Within(top[i], top[j]) || Within(top[j], top[i]) || top[i].end <= top[j].start || top[j].end <= top[i].start
  }

  /** Some different range encloses range `i`. */
  ghost predicate Enclosed(top: seq<Range>, i: nat)
    requires i < |top|
  {
    exists k :: 0 <= k < |top| && top[k] != top[i] && Within(top[i], top[k])
  }

  /** No positive-length range occurs twice without lying inside a different one. */
  ghost predicate NoTwins(top: seq<Range>) {
    forall i, j :: 0 <= i < |top| && 0 <= j < |top| && i != j && top[i] == top[j] && top[i].start < top[i].end ==>
      Enclosed(top, i)
  }

  lemma PointsAre(top: seq<Range>, n: nat, x: int)
    requires n <= |top|
    ensures x in Points(top, n) <==> exists i :: 0 <= i < n && top[i].start <= x < top[i].end
  {
    if i :| 0 <= i < n && top[i].start <= x < top[i].end {
      assert x in Span(top[i].start, top[i].end);
    }
  }

  lemma KeptPointsAre(top: seq<Range>, n: nat, x: int)
    requires n <= |top|
    ensures x in KeptPoints(top, n) <==> exists i :: 0 <= i < n && top[i].start <= x < top[i].end && !Nested(top, i)
  {
    if i :| 0 <= i < n && top[i].start <= x < top[i].end && !Nested(top, i) {
      assert x in Span(top[i].start, top[i].end);
    }
  }

  lemma KeptPointsNext(top: seq<Range>, n: nat)
    requires n < |top| && !Nested(top, n)
    ensures KeptPoints(top, n + 1) == KeptPoints(top, n) + Span(top[n].start, top[n].end)
  {
  }

  lemma KeptApart(top: seq<Range>, i: nat, j: nat)
    requires Proper(top) && i < |top| && j < |top| && i != j && !Nested(top, i) && !Nested(top, j)
    ensures top[i].end <= top[j].start || top[j].end <= top[i].start
  {
    assert !Within(top[i], top[j]) && !Within(top[j], top[i]);
  }

  lemma KeptNew(top: seq<Range>, n: nat)
    requires Proper(top) && n < |top| && !Nested(top, n)
    ensures KeptPoints(top, n) !! Span(top[n].start, top[n].end)
  {
    forall x | x in KeptPoints(top, n) ensures x !in Span(top[n].start, top[n].end) {
      KeptPointsAre(top, n, x);
      var i :| 0 <= i < n && top[i].start <= x < top[i].end && !Nested(top, i);
      KeptApart(top, i, n);
    }
  }

  lemma UnionSize(a: set<int>, b: set<int>)
    requires a !! b
    ensures |a + b| == |a| + |b|
  {
  }

  /** Range `n`, if kept, shares no instant with the ranges kept before it. */
  ghost predicate AddsNew(top: seq<Range>, n: nat)
    requires n < |top|
  {
    top[n].start <= top[n].end && (!Nested(top, n) ==> KeptPoints(top, n) !! Span(top[n].start, top[n].end))
  }

  lemma KeptStep(top: seq<Range>, n: nat)
    requires n < |top| && AddsNew(top, n) && |KeptPoints(top, n)| == KeptLength(top, n)
    ensures |KeptPoints(top, n + 1)| == KeptLength(top, n + 1)
  {
    if Nested(top, n) {
      assert KeptPoints(top, n + 1) == KeptPoints(top, n);
    } else {
      KeptPointsNext(top, n);
      SpanSize(top[n].start, top[n].end);
      UnionSize(KeptPoints(top, n), Span(top[n].start, top[n].end));
    }
  }

  lemma {:induction false} NewOnesAddUp(top: seq<Range>, n: nat)
    requires n <= |top| && forall i :: 0 <= i < n ==> AddsNew(top, i)
    ensures |KeptPoints(top, n)| == KeptLength(top, n)
  {
    if n > 0 {
      NewOnesAddUp(top, n - 1);
      KeptStep(top, n - 1);
    }
  }

  /** The kept ranges are disjoint, so their lengths add up to what they cover. */
  lemma KeptAddUp(top: seq<Range>, n: nat)
    requires Proper(top) && n <= |top|
    ensures |KeptPoints(top, n)| == KeptLength(top, n)
  {
    forall i | 0 <= i < n ensures AddsNew(top, i) {
      if !Nested(top, i) { KeptNew(top, i); }
    }
    NewOnesAddUp(top, n);
  }

  function Longest(top: seq<Range>, n: nat): (b: int)
    requires n <= |top|
    ensures forall i :: 0 <= i < n ==> top[i].end - top[i].start <= b
  {
    if n == 0 then 0
    else
      var b, l := Longest(top, n - 1), top[n - 1].end - top[n - 1].start;
      if b < l then l else b
  }

  /** Climbing to ever longer enclosing ranges ends at one that is kept. */
  lemma {:induction false} Climb(top: seq<Range>, i: nat, x: int) returns (k: nat)
    requires Proper(top) && NoTwins(top) && i < |top| && top[i].start <= x < top[i].end
    ensures k < |top| && !Nested(top, k) && top[k].start <= x < top[k].end
    decreases Longest(top, |top|) - (top[i].end - top[i].start)
  {
    k := i;
    if Nested(top, i) {
      var j :| 0 <= j < |top| && j != i && Within(top[i], top[j]);
      if top[j] != top[i] {
        k := Climb(top, j, x);
      } else {
        assert Enclosed(top, i);
        var m :| 0 <= m < |top| && top[m] != top[i] && Within(top[i], top[m]);
        k := Climb(top, m, x);
      }
    }
  }

  lemma TwinsAreLost(top: seq<Range>, i: nat, j: nat)
    requires Proper(top) && i < |top| && j < |top| && i != j && top[i] == top[j] && top[i].start < top[i].end
    requires !Enclosed(top, i)
    ensures top[i].start in Points(top, |top|) && top[i].start !in KeptPoints(top, |top|)
  {
    var x := top[i].start;
    PointsAre(top, |top|, x);
    KeptPointsAre(top, |top|, x);
    forall k | 0 <= k < |top| && top[k].start <= x < top[k].end ensures Nested(top, k) {
      assert Within(top[i], top[k]) || Within(top[k], top[i]);
      if k == i {
        assert Within(top[k], top[j]);
      } else {
        assert top[k] == top[i] || !Within(top[i], top[k]);
        assert Within(top[k], top[i]);
      }
    }
  }

  lemma KeptWithinAll(top: seq<Range>)
    ensures KeptPoints(top, |top|) <= Points(top, |top|)
  {
    forall x | x in KeptPoints(top, |top|) ensures x in Points(top, |top|) {
      KeptPointsAre(top, |top|, x);
      PointsAre(top, |top|, x);
    }
  }

  lemma NoTwinsCoverAll(top: seq<Range>)
    requires Proper(top) && NoTwins(top)
    ensures KeptPoints(top, |top|) == Points(top, |top|)
  {
    KeptWithinAll(top);
    forall x | x in Points(top, |top|) ensures x in KeptPoints(top, |top|) {
      PointsAre(top, |top|, x);
      var i :| 0 <= i < |top| && top[i].start <= x < top[i].end;
      var k := Climb(top, i, x);
      KeptPointsAre(top, |top|, x);
    }
  }

  lemma ProperSubsetSize(a: set<int>, b: set<int>, x: int)
    requires a <= b && x in b && x !in a
    ensures |a| < |b|
  {
    assert b == a + (b - a);
    UnionSize(a, b - a);
  }

  /**
   The exact condition for the P1 total: for nested-or-disjoint ranges, the summed length of the ranges
   that are not nested is the measure of the union of all of them if and only if no outermost range of
   positive length occurs twice (the filter drops both copies).
   */
  lemma P1TotalExact(top: seq<Range>)
    requires Proper(top)
    ensures KeptLength(top, |top|) == |Points(top, |top|)| <==> NoTwins(top)
  {
    KeptAddUp(top, |top|);
    if NoTwins(top) {
      NoTwinsCoverAll(top);
    } else {
      var i, j :| 0 <= i < |top| && 0 <= j < |top| && i != j && top[i] == top[j] && top[i].start < top[i].end &&
                  !Enclosed(top, i);
      TwinsAreLost(top, i, j);
      KeptWithinAll(top);
      ProperSubsetSize(KeptPoints(top, |top|), Points(top, |top|), top[i].start);
    }
  }

  /** Two equal ranges: each is dropped on account of the other, and their time is lost. */
  lemma TwinsLoseTheirTime()
    ensures var top := [Range(0, 4), Range(0, 4)];
      Proper(top) && KeptLength(top, |top|) == 0 && |Points(top, |top|)| == 4
  {
    var top := [Range(0, 4), Range(0, 4)];
    forall x ensures x in Points(top, 2) <==> x in Span(0, 4) {
      PointsAre(top, 2, x);
      if x in Span(0, 4) { assert top[0].start <= x < top[0].end; }
    }
    assert Points(top, 2) == Span(0, 4);
    SpanSize(0, 4);
  }

  /** CPU work and GPU wait of the P1 ranges of one step; together they are the time the ranges cover. */
  method P1Times(top: seq<Range>, syncs: seq<Range>) returns (tot: int, wait: int)
    requires Proper(top)
    ensures wait == KeptWait(top, syncs, |top|)
    ensures tot + wait == |Points(top, |top|)| <==> NoTwins(top)
  {
    tot, wait := 0, 0;
    var i := 0;
    while i < |top|
      invariant 0 <= i <= |top|
      invariant tot + wait == KeptLength(top, i) && wait == KeptWait(top, syncs, i)
    {
      if !Nested(top, i) {
        var w := Wait(syncs, top[i]);
        tot := tot + top[i].end - top[i].start - w;
        wait := wait + w;
      }
      i := i + 1;
    }
    P1TotalExact(top);
  }
}
