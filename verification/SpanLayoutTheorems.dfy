/** Whole layouts: what any sequence of placements keeps, and how few lines a sorted one needs. */
module SpanLayoutTheorems {
  import opened SpanLayout

  // ---------- any sequence of placements ----------

  /** A request starts with no remembered lines; a span is placed. */
  datatype Op = NewRequest | Put(pid: Pid, span: Interval)

  function Empty(): (l: Layout)
    ensures StatusInv(l)
  {
    Layout(map[], map[], [])
  }

  function Do(l: Layout, op: Op): (r: Layout)
    requires StatusInv(l)
    ensures StatusInv(r)
  {
    match op
    case NewRequest => l.(status := map[])
    case Put(pid, x) =>
      PlaceKeepsStatus(l, pid, x);
      Place(l, pid, x)
  }

  function Run(l: Layout, ops: seq<Op>): (r: Layout)
    requires StatusInv(l)
    ensures StatusInv(r)
  {
    if ops == [] then l else Do(Run(l, ops[..|ops| - 1]), ops[|ops| - 1])
  }

  lemma RunStep(l: Layout, ops: seq<Op>, op: Op)
    requires StatusInv(l)
    ensures Run(l, ops + [op]) == Do(Run(l, ops), op)
  {
    assert (ops + [op])[..|ops|] == ops;
  }

  /** Lines are numbered 1..n with one record each, whatever the spans. */
  lemma {:induction false} SlotsOfAnyRun(l: Layout, ops: seq<Op>)
    requires StatusInv(l) && SlotInv(l)
    ensures SlotInv(Run(l, ops))
  {
    if ops != [] {
      var before, op := Run(l, ops[..|ops| - 1]), ops[|ops| - 1];
      SlotsOfAnyRun(l, ops[..|ops| - 1]);
      if op.Put? {
        PlaceKeepsSlots(before, op.pid, op.span);
      } else {
        assert forall p :: Lines(Run(l, ops), p) == Lines(before, p);
      }
    }
  }

  lemma {:induction false} LinesStayGood(l: Layout, ops: seq<Op>)
    requires StatusInv(l) && GoodInv(l)
    requires forall k :: 0 <= k < |ops| && ops[k].Put? ==> ops[k].span.start < ops[k].span.end
    ensures GoodInv(Run(l, ops))
  {
    if ops != [] {
      var before, op := Run(l, ops[..|ops| - 1]), ops[|ops| - 1];
      LinesStayGood(l, ops[..|ops| - 1]);
      if op.Put? {
        PlaceKeepsGood(before, op.pid, op.span);
      } else {
        assert forall p :: Lines(Run(l, ops), p) == Lines(before, p);
      }
    }
  }

  /**
   If all spans have positive length, then after any sequence of placements every line holds sorted,
   pairwise disjoint intervals, and the neighbour check on it agrees with a full scan.
   */
  lemma LinesOfAnyRun(ops: seq<Op>, pid: Pid, k: nat, start: int, end: int)
    requires forall i :: 0 <= i < |ops| && ops[i].Put? ==> ops[i].span.start < ops[i].span.end
    requires k < |Lines(Run(Empty(), ops), pid)| && start < end
    ensures var line := Lines(Run(Empty(), ops), pid)[k];
      Good(line) && (CheckOverlap(line, start, end) <==> Scan(line, start, end))
  {
    LinesStayGood(Empty(), ops);
    assert AllGood(Lines(Run(Empty(), ops), pid));
    CheckIsScan(Lines(Run(Empty(), ops), pid)[k], start, end);
  }

  // ---------- one sorted list of spans ----------

  /** The spans placed one after the other, and the line each was given. */
  function PlaceAll(l: Layout, pid: Pid, spans: seq<Interval>): (r: (Layout, seq<nat>))
    requires StatusInv(l)
    ensures StatusInv(r.0) && |r.1| == |spans|
  {
    if spans == [] then (l, [])
    else
      var (before, tids) := PlaceAll(l, pid, spans[..|spans| - 1]);
      var x := spans[|spans| - 1];
      PlaceKeepsStatus(before, pid, x);
      (Place(before, pid, x), tids + [Choose(before, pid, x.start, x.end)])
  }

  lemma PlaceAllNext(l: Layout, pid: Pid, front: seq<Interval>, x: Interval, spans: seq<Interval>)
    requires StatusInv(l) && spans == front + [x]
    ensures var (before, tids) := PlaceAll(l, pid, front);
      PlaceAll(l, pid, spans) == (Place(before, pid, x), tids + [Choose(before, pid, x.start, x.end)])
  {
    assert spans[..|spans| - 1] == front;
  }

  /** The spans that are active at time `t`. */
  ghost function Active(spans: seq<Interval>, t: int): set<nat> {
    set i: nat | i < |spans| && spans[i].start <= t < spans[i].end
  }

  ghost predicate StartSorted(spans: seq<Interval>) {
    forall i, j :: 0 <= i < j < |spans| ==> spans[i].start <= spans[j].start
  }

  ghost predicate AllPositive(spans: seq<Interval>) {
    forall i :: 0 <= i < |spans| ==> spans[i].start < spans[i].end
  }

  /** Each span is on the line it was sent to. */
  ghost predicate Arrived(spans: seq<Interval>, tids: seq<nat>, lines: seq<Line>) {
    |tids| == |spans| &&
    forall i :: 0 <= i < |spans| ==> 1 <= tids[i] <= |lines| && spans[i] in lines[tids[i] - 1]
  }

  ghost predicate SentTo(spans: seq<Interval>, tids: seq<nat>, x: Interval, k: int) {
    exists i :: 0 <= i < |spans| && i < |tids| && tids[i] == k && spans[i] == x
  }

  /** A line holds nothing but spans that were sent to it. */
  ghost predicate NothingElse(spans: seq<Interval>, tids: seq<nat>, lines: seq<Line>) {
    forall k, x :: 0 <= k < |lines| && x in lines[k] ==> SentTo(spans, tids, x, k + 1)
  }

  /** Spans sent to the same line do not overlap. */
  ghost predicate Apart(spans: seq<Interval>, tids: seq<nat>) {
    |tids| == |spans| &&
    forall i, j :: 0 <= i < j < |spans| && tids[i] == tids[j] ==> !Meets(spans[i], spans[j].start, spans[j].end)
  }

  ghost predicate Faithful(spans: seq<Interval>, tids: seq<nat>, lines: seq<Line>) {
    AllGood(lines) && Arrived(spans, tids, lines) && NothingElse(spans, tids, lines) && Apart(spans, tids)
  }

  /** Some span of the set `a` was sent to line `k`. */
  ghost predicate BusyIn(a: set<nat>, tids: seq<nat>, k: int) {
    exists i :: i in a && i < |tids| && tids[i] == k
  }

  /** At time `t` each of the `n` lines has an active span. */
  ghost predicate AllBusy(spans: seq<Interval>, tids: seq<nat>, n: nat, t: int) {
    forall k :: 1 <= k <= n ==> BusyIn(Active(spans, t), tids, k)
  }

  /** `now` is `was` with `x` added to line `line`, which may be a new one. */
  ghost predicate Added(was: seq<Line>, now: seq<Line>, x: Interval, line: nat) {
    && 1 <= line <= |now| && |was| <= |now|
    && (|now| == |was| || line == |now| == |was| + 1)
    && forall k, y :: 0 <= k < |now| ==>
         (y in now[k] <==> (k < |was| && y in was[k]) || (k == line - 1 && y == x))
  }

  lemma InsertAdds(lines: seq<Line>, x: Interval, k: nat)
    requires k < |lines|
    ensures Added(lines, lines[k := Insert(lines[k], x)], x, k + 1)
  {
    forall y ensures y in Insert(lines[k], x) <==> y in lines[k] || y == x {
      InsertMembers(lines[k], x, y);
    }
  }

  lemma NewLineAdds(lines: seq<Line>, x: Interval)
    ensures Added(lines, lines + [[x]], x, |lines| + 1)
  {
  }

  lemma PlaceAdds(l: Layout, pid: Pid, x: Interval)
    requires StatusInv(l)
    ensures Added(Lines(l, pid), Lines(Place(l, pid, x), pid), x, Choose(l, pid, x.start, x.end))
  {
    var line := Choose(l, pid, x.start, x.end);
    PlaceLines(l, pid, x);
    if line <= |Lines(l, pid)| {
      InsertAdds(Lines(l, pid), x, line - 1);
    } else {
      NewLineAdds(Lines(l, pid), x);
    }
  }

  lemma AddedArrived(spans: seq<Interval>, tids: seq<nat>, was: seq<Line>, now: seq<Line>, x: Interval, line: nat)
    requires Arrived(spans, tids, was) && Added(was, now, x, line)
    ensures Arrived(spans + [x], tids + [line], now)
  {
  }

  lemma AddedNothingElse(spans: seq<Interval>, tids: seq<nat>, was: seq<Line>, now: seq<Line>, x: Interval, line: nat)
    requires NothingElse(spans, tids, was) && Added(was, now, x, line) && |tids| == |spans|
    ensures NothingElse(spans + [x], tids + [line], now)
  {
    var s, t := spans + [x], tids + [line];
    forall k, y | 0 <= k < |now| && y in now[k] ensures SentTo(s, t, y, k + 1) {
      if k < |was| && y in was[k] {
        assert SentTo(spans, tids, y, k + 1);
        var i :| 0 <= i < |spans| && tids[i] == k + 1 && spans[i] == y;
        assert t[i] == k + 1 && s[i] == y;
      } else {
        assert t[|spans|] == k + 1 && s[|spans|] == y;
      }
    }
  }

  lemma AddedApart(spans: seq<Interval>, tids: seq<nat>, lines: seq<Line>, x: Interval, line: nat)
    requires Apart(spans, tids) && Arrived(spans, tids, lines) && AllGood(lines) && x.start < x.end
    requires 1 <= line <= |lines| ==> !CheckOverlap(lines[line - 1], x.start, x.end)
    ensures Apart(spans + [x], tids + [line])
  {
    forall i | 0 <= i < |spans| && tids[i] == line ensures !Meets(spans[i], x.start, x.end) {
      CheckIsScan(lines[line - 1], x.start, x.end);
      var m :| 0 <= m < |lines[line - 1]| && lines[line - 1][m] == spans[i];
    }
  }

  lemma PlaceFaithful(l: Layout, pid: Pid, spans: seq<Interval>, tids: seq<nat>, x: Interval)
    requires StatusInv(l) && GoodInv(l) && Faithful(spans, tids, Lines(l, pid)) && x.start < x.end
    ensures Faithful(spans + [x], tids + [Choose(l, pid, x.start, x.end)], Lines(Place(l, pid, x), pid))
  {
    var line, was, now := Choose(l, pid, x.start, x.end), Lines(l, pid), Lines(Place(l, pid, x), pid);
    PlaceAdds(l, pid, x);
    PlaceKeepsGood(l, pid, x);
    AddedArrived(spans, tids, was, now, x, line);
    AddedNothingElse(spans, tids, was, now, x, line);
    AddedApart(spans, tids, was, x, line);
  }

  lemma BusyWhenFull(lines: seq<Line>, spans: seq<Interval>, tids: seq<nat>, x: Interval, k: nat)
    requires AllGood(lines) && NothingElse(spans, tids, lines) && x.start < x.end && |tids| == |spans|
    requires forall i :: 0 <= i < |spans| ==> spans[i].start <= x.start
    requires 1 <= k <= |lines| && CheckOverlap(lines[k - 1], x.start, x.end)
    ensures BusyIn(Active(spans, x.start), tids, k)
  {
    CheckIsScan(lines[k - 1], x.start, x.end);
    var m :| 0 <= m < |lines[k - 1]| && Meets(lines[k - 1][m], x.start, x.end);
    assert lines[k - 1][m] in lines[k - 1];
    assert SentTo(spans, tids, lines[k - 1][m], k);
    var i: nat :| i < |spans| && tids[i] == k && spans[i] == lines[k - 1][m];
    assert i in Active(spans, x.start);
  }

  lemma BusyStays(spans: seq<Interval>, tids: seq<nat>, t: int, x: Interval, line: nat, k: int)
    requires |tids| == |spans| && BusyIn(Active(spans, t), tids, k)
    ensures BusyIn(Active(spans + [x], t), tids + [line], k)
  {
    var i :| i in Active(spans, t) && i < |tids| && tids[i] == k;
    assert i in Active(spans + [x], t) && (tids + [line])[i] == k;
  }

  /** A new line is opened only when every line is busy at the span's start. */
  lemma NewLineAllBusy(l: Layout, pid: Pid, spans: seq<Interval>, tids: seq<nat>, x: Interval)
    requires StatusInv(l) && Faithful(spans, tids, Lines(l, pid)) && x.start < x.end
    requires forall i :: 0 <= i < |spans| ==> spans[i].start <= x.start
    requires Choose(l, pid, x.start, x.end) == |Lines(l, pid)| + 1
    ensures AllBusy(spans + [x], tids + [|Lines(l, pid)| + 1], |Lines(l, pid)| + 1, x.start)
  {
    var n := |Lines(l, pid)|;
    var active, ts := Active(spans + [x], x.start), tids + [n + 1];
    forall k | 1 <= k <= n ensures BusyIn(active, ts, k) {
      BusyWhenFull(Lines(l, pid), spans, tids, x, k);
      BusyStays(spans, tids, x.start, x, n + 1, k);
    }
    assert |spans| in active && ts[|spans|] == n + 1;
  }

  lemma StillAllBusy(spans: seq<Interval>, tids: seq<nat>, n: nat, t: int, x: Interval, line: nat)
    requires |tids| == |spans| && AllBusy(spans, tids, n, t)
    ensures AllBusy(spans + [x], tids + [line], n, t)
  {
    forall k | 1 <= k <= n ensures BusyIn(Active(spans + [x], t), tids + [line], k) {
      BusyStays(spans, tids, t, x, line, k);
    }
  }

  /** The spans lie on the lines they were sent to, without overlaps, and at time `t` all lines are busy. */
  ghost predicate Packed(spans: seq<Interval>, tids: seq<nat>, l: Layout, pid: Pid, t: int) {
    GoodInv(l) && Faithful(spans, tids, Lines(l, pid)) && AllBusy(spans, tids, |Lines(l, pid)|, t)
  }

  /** One more span: everything is kept, and some time keeps or makes all lines busy. */
  lemma PlacePacked(l: Layout, pid: Pid, spans: seq<Interval>, tids: seq<nat>, x: Interval, t: int) returns (u: int)
    requires StatusInv(l) && Packed(spans, tids, l, pid, t) && x.start < x.end
    requires forall i :: 0 <= i < |spans| ==> spans[i].start <= x.start
    ensures Packed(spans + [x], tids + [Choose(l, pid, x.start, x.end)], Place(l, pid, x), pid, u)
  {
    var line := Choose(l, pid, x.start, x.end);
    PlaceFaithful(l, pid, spans, tids, x);
    PlaceKeepsGood(l, pid, x);
    PlaceLines(l, pid, x);
    if line == |Lines(l, pid)| + 1 {
      NewLineAllBusy(l, pid, spans, tids, x);
      u := x.start;
    } else {
      StillAllBusy(spans, tids, |Lines(l, pid)|, t, x, line);
      u := t;
    }
  }

  /** After all spans of the list, with `pid` unused before, some time keeps all its lines busy. */
  ghost predicate AllPacked(l: Layout, pid: Pid, spans: seq<Interval>, t: int)
    requires StatusInv(l)
  {
    Packed(spans, PlaceAll(l, pid, spans).1, PlaceAll(l, pid, spans).0, pid, t)
  }

  lemma NothingPacked(l: Layout, pid: Pid)
    requires StatusInv(l) && GoodInv(l) && pid !in l.graph
    ensures AllPacked(l, pid, [], 0)
  {
  }

  lemma OneMorePacked(l: Layout, pid: Pid, front: seq<Interval>, x: Interval, spans: seq<Interval>, t: int)
    returns (u: int)
    requires StatusInv(l) && AllPacked(l, pid, front, t) && spans == front + [x] && x.start < x.end
    requires forall i :: 0 <= i < |front| ==> front[i].start <= x.start
    ensures AllPacked(l, pid, spans, u)
  {
    var r := PlaceAll(l, pid, front);
    PlaceAllNext(l, pid, front, x, spans);
    u := PlacePacked(r.0, pid, front, r.1, x, t);
  }

  lemma NextSpanFits(spans: seq<Interval>, n: nat)
    requires n < |spans| && StartSorted(spans) && AllPositive(spans)
    ensures spans[n].start < spans[n].end && spans[..n + 1] == spans[..n] + [spans[n]]
    ensures forall i :: 0 <= i < |spans[..n]| ==> spans[..n][i].start <= spans[n].start
  {
  }

  lemma AllPackedNext(l: Layout, pid: Pid, spans: seq<Interval>, n: nat, t: int) returns (u: int)
    requires StatusInv(l) && n < |spans| && StartSorted(spans) && AllPositive(spans)
    requires AllPacked(l, pid, spans[..n], t)
    ensures AllPacked(l, pid, spans[..n + 1], u)
  {
    NextSpanFits(spans, n);
    u := OneMorePacked(l, pid, spans[..n], spans[n], spans[..n + 1], t);
  }

  lemma {:induction false} PackedUpTo(l: Layout, pid: Pid, spans: seq<Interval>, n: nat) returns (t: int)
    requires StatusInv(l) && n <= |spans| && StartSorted(spans) && AllPositive(spans) && AllPacked(l, pid, [], 0)
    ensures AllPacked(l, pid, spans[..n], t)
  {
    if n == 0 {
      t := 0;
      assert spans[..n] == [];
    } else {
      t := PackedUpTo(l, pid, spans, n - 1);
      t := AllPackedNext(l, pid, spans, n - 1, t);
    }
  }

  lemma PlaceAllPacked(l: Layout, pid: Pid, spans: seq<Interval>) returns (t: int)
    requires StatusInv(l) && GoodInv(l) && pid !in l.graph && StartSorted(spans) && AllPositive(spans)
    ensures AllPacked(l, pid, spans, t)
  {
    NothingPacked(l, pid);
    t := PackedUpTo(l, pid, spans, |spans|);
    assert spans[..|spans|] == spans;
  }

  // ---------- counting ----------

  lemma {:induction false} InjectiveCount(a: set<nat>, tids: seq<nat>, n: nat)
    requires forall i :: i in a ==> i < |tids| && 1 <= tids[i] <= n
    requires forall i, j :: i in a && j in a && tids[i] == tids[j] ==> i == j
    ensures |a| <= n
  {
    if n == 0 {
      assert a == {};
    } else if i :| i in a && tids[i] == n {
      InjectiveCount(a - {i}, tids, n - 1);
      assert |a| == |a - {i}| + 1;
    } else {
      InjectiveCount(a, tids, n - 1);
    }
  }

  lemma {:induction false} SurjectiveCount(a: set<nat>, tids: seq<nat>, n: nat)
    requires forall k :: 1 <= k <= n ==> BusyIn(a, tids, k)
    ensures |a| >= n
  {
    if n > 0 {
      assert BusyIn(a, tids, n);
      var i :| i in a && i < |tids| && tids[i] == n;
      forall k | 1 <= k <= n - 1 ensures BusyIn(a - {i}, tids, k) {
        assert BusyIn(a, tids, k);
        var j :| j in a && j < |tids| && tids[j] == k;
        assert j in a - {i};
      }
      SurjectiveCount(a - {i}, tids, n - 1);
      assert |a| == |a - {i}| + 1;
    }
  }

  /** Two spans that are active at the same time meet. */
  lemma ActiveMeet(spans: seq<Interval>, t: int, i: nat, j: nat)
    requires i in Active(spans, t) && j in Active(spans, t)
    ensures Meets(spans[i], spans[j].start, spans[j].end)
  {
  }

  lemma ActiveBelow(spans: seq<Interval>, tids: seq<nat>, n: nat, t: int)
    requires Apart(spans, tids) && forall i :: 0 <= i < |spans| ==> 1 <= tids[i] <= n
    ensures |Active(spans, t)| <= n
  {
    forall i, j | i in Active(spans, t) && j in Active(spans, t) && tids[i] == tids[j] ensures i == j {
      ActiveMeet(spans, t, i, j);
      ActiveMeet(spans, t, j, i);
    }
    InjectiveCount(Active(spans, t), tids, n);
  }

  /**
   Interval partitioning is optimal: on a start-sorted list of positive-length spans and a fresh process,
   the number of lines is the largest number of spans active at once.
   */
  lemma LinesAreDepth(l: Layout, pid: Pid, spans: seq<Interval>)
    requires StatusInv(l) && GoodInv(l) && pid !in l.graph && StartSorted(spans) && AllPositive(spans)
    ensures var n := |Lines(PlaceAll(l, pid, spans).0, pid)|;
      && (forall t :: |Active(spans, t)| <= n)
      && (exists t :: |Active(spans, t)| == n)
  {
    var r := PlaceAll(l, pid, spans);
    var n := |Lines(r.0, pid)|;
    var t := PlaceAllPacked(l, pid, spans);
    forall u ensures |Active(spans, u)| <= n {
      ActiveBelow(spans, r.1, n, u);
    }
    SurjectiveCount(Active(spans, t), r.1, n);
    assert |Active(spans, t)| == n;
  }

  /** No assignment of lines that keeps overlapping spans apart gets by with fewer lines. */
  lemma NoAssignmentIsShorter(l: Layout, pid: Pid, spans: seq<Interval>, other: seq<nat>, n: nat)
    requires StatusInv(l) && GoodInv(l) && pid !in l.graph && StartSorted(spans) && AllPositive(spans)
    requires Apart(spans, other) && forall i :: 0 <= i < |spans| ==> 1 <= other[i] <= n
    ensures |Lines(PlaceAll(l, pid, spans).0, pid)| <= n
  {
    LinesAreDepth(l, pid, spans);
    var t :| |Active(spans, t)| == |Lines(PlaceAll(l, pid, spans).0, pid)|;
    ActiveBelow(spans, other, n, t);
  }
}
