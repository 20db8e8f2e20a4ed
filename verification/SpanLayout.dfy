/**
 The layout of trace spans on the lines ("slots") of a process: the two-neighbour overlap check on a
 sorted list of intervals, and sticky-then-first-fit placement.
 */
module SpanLayout {
  import opened Sums

  datatype Interval = Interval(start: int, end: int)

  type Line = seq<Interval>

  /** A traced thread, or the gateway. */
  datatype Pid = Thread(id: int) | Smg

  datatype Slot = Slot(pid: Pid, line: nat)

  /** All lines of all processes, the current request's line per process, and the slot records. */
  datatype Layout = Layout(graph: map<Pid, seq<Line>>, status: map<Pid, nat>, slots: seq<Slot>)

  // ---------- one line ----------

  /** `bisect_left` with `(start, -inf)`: how many intervals lead the list with an earlier start. */
  function StartRank(line: Line, start: int): (r: nat)
    ensures r <= |line|
    ensures forall i :: 0 <= i < r ==> line[i].start < start
    ensures r < |line| ==> line[r].start >= start
  {
    StartRankFrom(line, start, 0)
  }

  function StartRankFrom(line: Line, start: int, i: nat): (r: nat)
    requires i <= |line|
    ensures i <= r <= |line|
    ensures forall j :: i <= j < r ==> line[j].start < start
    ensures r < |line| ==> line[r].start >= start
    decreases |line| - i
  {
    if i == |line| || line[i].start >= start then i else StartRankFrom(line, start, i + 1)
  }

  /** Python's order on pairs. */
  predicate Below(a: Interval, b: Interval) {
    a.start < b.start || (a.start == b.start && a.end < b.end)
  }

  /** `bisect_left` with the pair itself. */
  function PairRank(line: Line, x: Interval): (r: nat)
    ensures r <= |line|
    ensures forall i :: 0 <= i < r ==> Below(line[i], x)
    ensures r < |line| ==> !Below(line[r], x)
  {
    PairRankFrom(line, x, 0)
  }

  function PairRankFrom(line: Line, x: Interval, i: nat): (r: nat)
    requires i <= |line|
    ensures i <= r <= |line|
    ensures forall j :: i <= j < r ==> Below(line[j], x)
    ensures r < |line| ==> !Below(line[r], x)
    decreases |line| - i
  {
    if i == |line| || !Below(line[i], x) then i else PairRankFrom(line, x, i + 1)
  }

  /** The neighbour check. */
  predicate CheckOverlap(line: Line, start: int, end: int) {
    var i := StartRank(line, start);
    (i > 0 && line[i - 1].end > start) || (i < |line| && line[i].start < end)
  }

  /** `insort_left`. */
  function Insert(line: Line, x: Interval): Line {
    line[..PairRank(line, x)] + [x] + line[PairRank(line, x)..]
  }

  /** Positive lengths, in order, no two overlapping. */
  ghost predicate Good(line: Line) {
    && (forall i :: 0 <= i < |line| ==> line[i].start < line[i].end)
    && (forall i, j :: 0 <= i < j < |line| ==> line[i].end <= line[j].start)
  }

  /** Two half-open intervals share a point. */
  predicate Meets(x: Interval, start: int, end: int) {
    (if x.start < start then start else x.start) < (if x.end < end then x.end else end)
  }

  /** The check by scanning all intervals. */
  ghost predicate Scan(line: Line, start: int, end: int) {
    exists i :: 0 <= i < |line| && Meets(line[i], start, end)
  }

  /** Looking at the two neighbours is as good as scanning the whole line. */
  lemma CheckIsScan(line: Line, start: int, end: int)
    requires Good(line) && start < end
    ensures CheckOverlap(line, start, end) <==> Scan(line, start, end)
  {
    var r := StartRank(line, start);
    if CheckOverlap(line, start, end) {
      var k := if r > 0 && line[r - 1].end > start then r - 1 else r;
      assert Meets(line[k], start, end);
    }
    if Scan(line, start, end) {
      var k :| 0 <= k < |line| && Meets(line[k], start, end);
      assert k + 1 < r ==> line[k].end <= line[r - 1].start;
      assert k > r ==> line[r].end <= line[k].start;
    }
  }

  lemma InsertMembers(line: Line, x: Interval, y: Interval)
    ensures y in Insert(line, x) <==> y in line || y == x
  {
    var r := PairRank(line, x);
    assert line == line[..r] + line[r..];
  }

  lemma GoodBetween(a: Line, x: Interval, b: Line)
    requires Good(a) && Good(b) && x.start < x.end
    requires forall i :: 0 <= i < |a| ==> a[i].end <= x.start
    requires forall i :: 0 <= i < |b| ==> x.end <= b[i].start
    ensures Good(a + [x] + b)
  {
    var c := a + [x] + b;
    forall i, j | 0 <= i < j < |c| ensures c[i].end <= c[j].start {
      if i < |a| && j > |a| {
        assert a[i].end <= x.start && x.end <= b[j - |a| - 1].start;
      }
    }
  }

  lemma ApartEitherWay(y: Interval, x: Interval)
    requires x.start < x.end && y.start < y.end && !Meets(y, x.start, x.end)
    ensures y.end <= x.start || x.end <= y.start
  {
  }

  lemma EndsBefore(line: Line, x: Interval, i: nat)
    requires Good(line) && x.start < x.end && i < PairRank(line, x) && !Meets(line[i], x.start, x.end)
    ensures line[i].end <= x.start
  {
    assert Below(line[i], x);
    ApartEitherWay(line[i], x);
  }

  lemma StartsAfter(line: Line, x: Interval, i: nat)
    requires Good(line) && x.start < x.end && PairRank(line, x) <= i < |line| && !Meets(line[i], x.start, x.end)
    ensures x.end <= line[i].start
  {
    var p := PairRank(line, x);
    assert line[p].start >= x.start;
    if i > p { assert line[p].end <= line[i].start; }
    ApartEitherWay(line[i], x);
  }

  lemma NoneMeets(line: Line, x: Interval)
    requires Good(line) && x.start < x.end && !CheckOverlap(line, x.start, x.end)
    ensures forall i :: 0 <= i < |line| ==> !Meets(line[i], x.start, x.end)
  {
    CheckIsScan(line, x.start, x.end);
  }

  /** A span that passes the check keeps the line disjoint and in order. */
  lemma InsertKeepsGood(line: Line, x: Interval)
    requires Good(line) && x.start < x.end && !CheckOverlap(line, x.start, x.end)
    ensures Good(Insert(line, x))
  {
    var p := PairRank(line, x);
    NoneMeets(line, x);
    forall i | 0 <= i < p ensures line[i].end <= x.start { EndsBefore(line, x, i); }
    forall i | p <= i < |line| ensures x.end <= line[i].start { StartsAfter(line, x, i); }
    GoodBetween(line[..p], x, line[p..]);
  }

  // ---------- placement ----------

  /** The first line from `i` on that has room for the span, or the number of lines. */
  function FirstFit(lines: seq<Line>, start: int, end: int, i: nat): (k: nat)
    requires i <= |lines|
    ensures i <= k <= |lines|
    ensures forall j :: i <= j < k ==> CheckOverlap(lines[j], start, end)
    ensures k < |lines| ==> !CheckOverlap(lines[k], start, end)
    decreases |lines| - i
  {
    if i == |lines| || !CheckOverlap(lines[i], start, end) then i else FirstFit(lines, start, end, i + 1)
  }

  function Lines(l: Layout, pid: Pid): seq<Line> {
    if pid in l.graph then l.graph[pid] else []
  }

  /** Every remembered line exists. */
  ghost predicate StatusInv(l: Layout) {
    && (forall p :: p in l.status ==> p in l.graph && 1 <= l.status[p] <= |l.graph[p]|)
    && (forall p :: p in l.graph ==> l.graph[p] != [])
  }

  predicate Sticks(l: Layout, pid: Pid, start: int, end: int)
    requires StatusInv(l)
  {
    pid in l.status && (start == end || !CheckOverlap(l.graph[pid][l.status[pid] - 1], start, end))
  }

  /** The line `__find_line` answers, counted from 1. */
  function Choose(l: Layout, pid: Pid, start: int, end: int): (line: nat)
    requires StatusInv(l)
    ensures 1 <= line <= |Lines(l, pid)| + 1
  {
    if Sticks(l, pid, start, end) then l.status[pid]
    else FirstFit(Lines(l, pid), start, end, 0) + 1
  }

  /** The layout after `__find_line`. */
  function Opened(l: Layout, pid: Pid, start: int, end: int): Layout
    requires StatusInv(l)
  {
    var line, lines := Choose(l, pid, start, end), Lines(l, pid);
    if line <= |lines| then l.(status := l.status[pid := line])
    else Layout(l.graph[pid := lines + [[]]], l.status[pid := line], l.slots + [Slot(pid, line)])
  }

  /** The layout after `__find_line` and `insert_span`. */
  function Place(l: Layout, pid: Pid, x: Interval): Layout
    requires StatusInv(l)
  {
    var line, o := Choose(l, pid, x.start, x.end), Opened(l, pid, x.start, x.end);
    o.(graph := o.graph[pid := o.graph[pid][line - 1 := Insert(o.graph[pid][line - 1], x)]])
  }

  /** The lines of a process are numbered from 1 without gaps, with exactly one slot record each. */
  ghost predicate SlotInv(l: Layout) {
    forall s: Slot :: Occurrences(l.slots, s) == One(1 <= s.line <= |Lines(l, s.pid)|)
  }

  ghost predicate AllGood(lines: seq<Line>) {
    forall k :: 0 <= k < |lines| ==> Good(lines[k])
  }

  ghost predicate GoodInv(l: Layout) {
    forall p :: AllGood(Lines(l, p))
  }

  /** What one placement does to the lines and the slots of each process. */
  lemma PlaceLines(l: Layout, pid: Pid, x: Interval)
    requires StatusInv(l)
    ensures var t, line, lines := Place(l, pid, x), Choose(l, pid, x.start, x.end), Lines(l, pid);
      && (forall p :: p != pid ==> Lines(t, p) == Lines(l, p))
      && (line <= |lines| ==> Lines(t, pid) == lines[line - 1 := Insert(lines[line - 1], x)] && t.slots == l.slots)
      && (line == |lines| + 1 ==> Lines(t, pid) == lines + [[x]] && t.slots == l.slots + [Slot(pid, line)])
      && t.status == l.status[pid := line]
  {
    assert Insert([], x) == [x];
  }

  lemma PlaceKeepsStatus(l: Layout, pid: Pid, x: Interval)
    requires StatusInv(l)
    ensures StatusInv(Place(l, pid, x))
  {
  }

  lemma PlaceKeepsSlots(l: Layout, pid: Pid, x: Interval)
    requires StatusInv(l) && SlotInv(l)
    ensures SlotInv(Place(l, pid, x))
  {
    var t, line := Place(l, pid, x), Choose(l, pid, x.start, x.end);
    PlaceLines(l, pid, x);
    forall s: Slot ensures Occurrences(t.slots, s) == One(1 <= s.line <= |Lines(t, s.pid)|) {
      OccurrencesPush(l.slots, Slot(pid, line), s);
    }
  }

  lemma PlaceKeepsGood(l: Layout, pid: Pid, x: Interval)
    requires StatusInv(l) && GoodInv(l) && x.start < x.end
    ensures GoodInv(Place(l, pid, x))
  {
    var t, line, lines := Place(l, pid, x), Choose(l, pid, x.start, x.end), Lines(l, pid);
    PlaceLines(l, pid, x);
    assert AllGood(lines);
    if line <= |lines| {
      InsertKeepsGood(lines[line - 1], x);
    }
    forall p ensures AllGood(Lines(t, p)) {
      assert AllGood(Lines(l, p));
    }
  }
}
