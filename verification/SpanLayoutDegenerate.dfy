/**
 Spans without positive length, which the 1000 ns trim can produce, and what they do to the
 neighbour check.
 */
module SpanLayoutDegenerate {
  import opened Wrappers
  import opened SpanLayout
  import opened SpanLayoutTheorems

  /** The neighbour check answers every query with positive length as a scan would. */
  ghost predicate Agrees(line: Line) {
    forall a, b :: a < b ==> (CheckOverlap(line, a, b) <==> Scan(line, a, b))
  }

  lemma StartRankUnique(line: Line, a: int, r: nat)
    requires r <= |line| && (forall i :: 0 <= i < r ==> line[i].start < a)
    requires r < |line| ==> line[r].start >= a
    ensures StartRank(line, a) == r
  {
  }

  // ---------- any number of degenerate spans ----------

  ghost predicate StartOrdered(line: Line) {
    forall i, j :: 0 <= i < j < |line| ==> line[i].start <= line[j].start
  }

  /** Some interval covers the instant `s`. */
  ghost predicate Covered(line: Line, s: int) {
    exists i :: 0 <= i < |line| && line[i].start <= s < line[i].end
  }

  /** The first instant behind entry `p` that `p` itself does not answer for. */
  function Reach(line: Line, p: nat): int
    requires p < |line|
  {
    Max(line[p].end, line[p].start + 1)
  }

  /** Entry `p` is the last with its start, and the next start, if any, comes after its reach. */
  ghost predicate Gap(line: Line, p: nat) {
    p < |line| && (p + 1 < |line| ==> line[p + 1].start > Reach(line, p))
  }

  ghost predicate StartsInside(line: Line, k: nat) {
    k < |line| && Covered(line, line[k].start)
  }

  /** Interval `i` does not reach over entry `p` into a gap behind it. */
  ghost predicate StopsShort(line: Line, i: nat, p: nat)
    requires i < |line| && p < |line|
  {
    Gap(line, p) ==> line[i].end <= Reach(line, p)
  }

  /**
   Every entry starts inside some interval, and no interval reaches over an entry into the gap behind it, where only
   that entry is looked at.
   */
  ghost predicate NothingHidden(line: Line) {
    && (forall k: nat :: k < |line| ==> StartsInside(line, k))
    && (forall i: nat, p: nat :: i < p < |line| ==> StopsShort(line, i, p))
  }

  lemma CoveredMeets(line: Line, a: int, b: int, s: int)
    requires a <= s < b && Covered(line, s)
    ensures Scan(line, a, b)
  {
    var i :| 0 <= i < |line| && line[i].start <= s < line[i].end;
    assert Meets(line[i], a, b);
  }

  lemma CheckIsRight(line: Line, a: int, b: int)
    requires NothingHidden(line) && a < b && CheckOverlap(line, a, b)
    ensures Scan(line, a, b)
  {
    var r := StartRank(line, a);
    if r > 0 && line[r - 1].end > a {
      assert Meets(line[r - 1], a, b);
    } else {
      assert StartsInside(line, r);
      CoveredMeets(line, a, b, line[r].start);
    }
  }

  /** The last entry before `a` leaves a gap at `a` when the check sees nothing. */
  lemma GapAt(line: Line, a: int, b: int)
    requires StartRank(line, a) > 0 && a < b && !CheckOverlap(line, a, b)
    ensures Gap(line, StartRank(line, a) - 1) && Reach(line, StartRank(line, a) - 1) <= a
  {
  }

  lemma CheckMissesNothing(line: Line, a: int, b: int, i: nat)
    requires StartOrdered(line) && NothingHidden(line) && a < b && i < |line| && Meets(line[i], a, b)
    ensures CheckOverlap(line, a, b)
  {
    var r := StartRank(line, a);
    if i < r {
      if i + 1 < r { assert StopsShort(line, i, r - 1); }
      if !CheckOverlap(line, a, b) { GapAt(line, a, b); }
    } else {
      assert line[r].start <= line[i].start;
    }
  }

  /** An entry outside all intervals is taken for one. */
  lemma UncoveredFools(line: Line, k: nat)
    requires StartOrdered(line) && k < |line| && !Covered(line, line[k].start)
    ensures CheckOverlap(line, line[k].start, line[k].start + 1) && !Scan(line, line[k].start, line[k].start + 1)
  {
    var s := line[k].start;
    var r := StartRank(line, s);
    assert r <= k && line[r].start == s;
    forall i | 0 <= i < |line| ensures !Meets(line[i], s, s + 1) {
      assert !(line[i].start <= s < line[i].end);
    }
  }

  /** An interval that reaches over entry `p` is missed at the first instant behind the reach of `p`. */
  lemma HiddenFools(line: Line, i: nat, p: nat)
    requires StartOrdered(line) && i < p < |line| && Gap(line, p) && line[i].end > Reach(line, p)
    ensures var a := Reach(line, p); !CheckOverlap(line, a, a + 1) && Scan(line, a, a + 1)
  {
    var a := Reach(line, p);
    StartRankUnique(line, a, p + 1);
    assert Meets(line[i], a, a + 1);
  }

  lemma FooledAt(line: Line) returns (a: int)
    requires StartOrdered(line) && !NothingHidden(line)
    ensures !(CheckOverlap(line, a, a + 1) <==> Scan(line, a, a + 1))
  {
    if k: nat :| k < |line| && !StartsInside(line, k) {
      UncoveredFools(line, k);
      a := line[k].start;
    } else {
      var i: nat, p: nat :| i < p < |line| && !StopsShort(line, i, p);
      HiddenFools(line, i, p);
      a := Reach(line, p);
    }
  }

  /**
   The exact condition for a line with any number of degenerate spans, however they got there: the neighbour check
   agrees with the scan on every query if and only if nothing is hidden.
   */
  lemma AgreesExact(line: Line)
    requires StartOrdered(line)
    ensures Agrees(line) <==> NothingHidden(line)
  {
    if NothingHidden(line) {
      forall a, b | a < b ensures CheckOverlap(line, a, b) <==> Scan(line, a, b) {
        if CheckOverlap(line, a, b) { CheckIsRight(line, a, b); }
        if i :| 0 <= i < |line| && Meets(line[i], a, b) { CheckMissesNothing(line, a, b, i); }
      }
    } else {
      var a := FooledAt(line);
      assert !(CheckOverlap(line, a, a + 1) <==> Scan(line, a, a + 1));
    }
  }

  // ---------- one degenerate span on a good line ----------

  /** The instant `s` is the first or the last nanosecond of an interval on the line. */
  ghost predicate AtAnEdge(line: Line, s: int) {
    exists i :: 0 <= i < |line| && EdgeOf(line[i], s)
  }

  predicate EdgeOf(y: Interval, s: int) {
    y.start <= s < y.end && (y.start == s || y.end == s + 1)
  }

  /** A line that is good but for the degenerate entry `p`. */
  ghost predicate GoodBut(l: Line, p: nat) {
    && p < |l| && l[p].end <= l[p].start
    && (forall i :: 0 <= i < |l| && i != p ==> l[i].start < l[i].end)
    && (forall i, j :: 0 <= i < j < |l| && i != p && j != p ==> l[i].end <= l[j].start)
    && (forall i :: 0 <= i < p ==> l[i].start < l[p].start)
    && (forall i :: p < i < |l| ==> l[p].start <= l[i].start)
  }

  /** Everything in `a` starts before `x`, and nothing in `b` does. */
  ghost predicate Around(a: Line, x: Interval, b: Line) {
    (forall i :: 0 <= i < |a| ==> a[i].start < x.start) && forall i :: 0 <= i < |b| ==> x.start <= b[i].start
  }

  /** The place of a degenerate span on a good line. */
  lemma DegeneratePlace(line: Line, x: Interval)
    requires Good(line) && x.end <= x.start
    ensures Around(line[..PairRank(line, x)], x, line[PairRank(line, x)..])
  {
    var p := PairRank(line, x);
    forall i | 0 <= i < p ensures line[i].start < x.start {
      assert Below(line[i], x);
    }
    forall i | p <= i < |line| ensures x.start <= line[i].start {
      if i > p { assert line[p].end <= line[i].start; }
    }
  }

  lemma InsertParts(line: Line, x: Interval)
    ensures var p := PairRank(line, x);
      && line[..p] + line[p..] == line && |line[..p]| == p
      && Insert(line, x) == line[..p] + [x] + line[p..] && Insert(line, x)[p] == x
  {
  }

  /** A degenerate span goes in front of everything that starts no earlier. */
  lemma InsertSpoils(line: Line, x: Interval)
    requires Good(line) && x.end <= x.start
    ensures Insert(line, x)[PairRank(line, x)] == x && GoodBut(Insert(line, x), PairRank(line, x))
    ensures AtAnEdge(Insert(line, x), x.start) <==> AtAnEdge(line, x.start)
  {
    var p := PairRank(line, x);
    InsertParts(line, x);
    DegeneratePlace(line, x);
    PartsSpoil(line[..p], x, line[p..]);
    EdgesOfParts(line[..p], x, line[p..], x.start);
  }

  lemma PartsSpoil(a: Line, x: Interval, b: Line)
    requires Good(a + b) && x.end <= x.start && Around(a, x, b)
    ensures GoodBut(a + [x] + b, |a|)
  {
    var l, line := a + [x] + b, a + b;
    forall i | 0 <= i < |l| && i != |a| ensures l[i] == line[if i < |a| then i else i - 1] {
    }
  }

  lemma EdgesOfParts(a: Line, x: Interval, b: Line, s: int)
    requires x.end <= x.start
    ensures AtAnEdge(a + [x] + b, s) <==> AtAnEdge(a + b, s)
  {
    var l, line := a + [x] + b, a + b;
    if i :| 0 <= i < |l| && EdgeOf(l[i], s) {
      assert l[i] == line[if i < |a| then i else i - 1];
    }
    if i :| 0 <= i < |line| && EdgeOf(line[i], s) {
      assert line[i] == l[if i < |a| then i else i + 1];
    }
  }

  lemma HiddenOrEdge(l: Line, p: nat)
    requires GoodBut(l, p) && NothingHidden(l)
    ensures AtAnEdge(l, l[p].start)
  {
    var s := l[p].start;
    assert StartsInside(l, p);
    var i :| 0 <= i < |l| && l[i].start <= s < l[i].end;
    if l[i].start < s {
      assert StopsShort(l, i, p);
      assert p + 1 < |l| ==> l[i].end <= l[p + 1].start;
    }
    assert EdgeOf(l[i], s);
  }

  lemma EdgeStops(l: Line, p: nat, e: nat, i: nat)
    requires GoodBut(l, p) && e < |l| && EdgeOf(l[e], l[p].start) && i < p
    ensures StopsShort(l, i, p)
  {
    if e > p {
      assert l[p + 1].start <= l[e].start;
    }
  }

  lemma OthersStop(l: Line, p: nat, i: nat, q: nat)
    requires GoodBut(l, p) && i < q < |l| && q != p
    ensures StopsShort(l, i, q) && StartsInside(l, q)
  {
    assert l[q].start <= l[q].start < l[q].end;
  }

  lemma EdgeHidesNothing(l: Line, p: nat)
    requires GoodBut(l, p) && AtAnEdge(l, l[p].start)
    ensures NothingHidden(l)
  {
    var e :| 0 <= e < |l| && EdgeOf(l[e], l[p].start);
    forall k: nat | k < |l| ensures StartsInside(l, k) {
      if k != p { assert l[k].start <= l[k].start < l[k].end; }
    }
    forall i: nat, q: nat | i < q < |l| ensures StopsShort(l, i, q) {
      if q == p { EdgeStops(l, p, e, i); } else { OthersStop(l, p, i, q); }
    }
  }

  lemma GoodButIsOrdered(l: Line, p: nat)
    requires GoodBut(l, p)
    ensures StartOrdered(l)
  {
  }

  /**
   The exact condition for the first such span: adding it to a good line leaves the neighbour check right if and only
   if its instant is the first or last nanosecond of an interval there.
   */
  lemma DegenerateExact(line: Line, x: Interval)
    requires Good(line) && x.end <= x.start
    ensures Agrees(Insert(line, x)) <==> AtAnEdge(line, x.start)
  {
    var p, l := PairRank(line, x), Insert(line, x);
    InsertSpoils(line, x);
    GoodButIsOrdered(l, p);
    AgreesExact(l);
    if NothingHidden(l) { HiddenOrEdge(l, p); }
    if AtAnEdge(l, x.start) { EdgeHidesNothing(l, p); }
  }

  /** Behind the start of a longer interval, such a span hides the rest of that interval. */
  lemma HidesTheRest(l: Line, p: nat, i: nat)
    requires GoodBut(l, p) && i < |l| && l[i].start < l[p].start && l[p].start + 1 < l[i].end
    ensures var a := l[p].start + 1; !CheckOverlap(l, a, a + 1) && Scan(l, a, a + 1)
  {
    GoodButIsOrdered(l, p);
    assert i < p;
    assert p + 1 < |l| ==> l[i].end <= l[p + 1].start;
    HiddenFools(l, i, p);
  }

  // ---------- a collision ----------

  lemma FirstSpan(x: Interval)
    ensures var l := Run(Empty(), [NewRequest, Put(Smg, x)]); Lines(l, Smg) == [[x]] && Smg in l.status && l.status[Smg] == 1
  {
    assert [] + [NewRequest] == [NewRequest] && [NewRequest] + [Put(Smg, x)] == [NewRequest, Put(Smg, x)];
    RunStep(Empty(), [], NewRequest);
    RunStep(Empty(), [NewRequest], Put(Smg, x));
    PlaceLines(Run(Empty(), [NewRequest]), Smg, x);
  }

  /** A span that sticks to the only line is inserted there. */
  lemma NextSpan(ops: seq<Op>, line: Line, x: Interval)
    requires Lines(Run(Empty(), ops), Smg) == [line] && Smg in Run(Empty(), ops).status && Run(Empty(), ops).status[Smg] == 1
    requires x.start == x.end || !CheckOverlap(line, x.start, x.end)
    ensures var l := Run(Empty(), ops + [Put(Smg, x)]);
      Lines(l, Smg) == [Insert(line, x)] && Smg in l.status && l.status[Smg] == 1
  {
    RunStep(Empty(), ops, Put(Smg, x));
    PlaceLines(Run(Empty(), ops), Smg, x);
  }

  /** A zero-length span sticks to its line unchecked and then hides a longer one: two spans overlap. */
  lemma ZeroLengthCollision()
    ensures var ops := [NewRequest, Put(Smg, Interval(0, 10))] + [Put(Smg, Interval(5, 5))] + [Put(Smg, Interval(6, 7))];
      Lines(Run(Empty(), ops), Smg) == [[Interval(0, 10), Interval(5, 5), Interval(6, 7)]]
  {
    var a, b, c := Interval(0, 10), Interval(5, 5), Interval(6, 7);
    FirstSpan(a);
    NextSpan([NewRequest, Put(Smg, a)], [a], b);
    InsertLast([a], b);
    assert [a] + [b] == [a, b];
    StartRankUnique([a, b], 6, 2);
    NextSpan([NewRequest, Put(Smg, a)] + [Put(Smg, b)], [a, b], c);
    InsertLast([a, b], c);
    assert [a, b] + [c] == [a, b, c];
  }

  lemma InsertLast(line: Line, x: Interval)
    requires forall i :: 0 <= i < |line| ==> Below(line[i], x)
    ensures Insert(line, x) == line + [x]
  {
    assert PairRank(line, x) == |line|;
  }
}
