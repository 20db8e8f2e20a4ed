/**
 One step window of a profiler trace, in integer time: the sorted sweep that measures the union of the GPU
 events, the idle time, and the split of event time over categories.
 */
module BusySweep {
  import opened Wrappers

  // ---------- categories ----------

  datatype Category = P1g | P2 | P3 | P4 | K1 | M

  /** The share of an event each category is charged with. */
  datatype Weights = Weights(p1g: real, p2: real, p3: real, p4: real, k1: real, m: real)

  function Total(w: Weights): real {
    w.p1g + w.p2 + w.p3 + w.p4 + w.k1 + w.m
  }

  function Whole(c: Category): Weights {
    Weights(if c.P1g? then 1.0 else 0.0, if c.P2? then 1.0 else 0.0, if c.P3? then 1.0 else 0.0,
            if c.P4? then 1.0 else 0.0, if c.K1? then 1.0 else 0.0, if c.M? then 1.0 else 0.0)
  }

  /** The kernels whose generic name two categories share, by per-layer counts. */
  datatype SharedKernel = Float8Copy | AddOrClamp | DirectCopy

  function SharedWeights(k: SharedKernel): Weights {
    match k
    case Float8Copy => Weights(0.0, 0.0, 2.0 / 3.0, 0.0, 1.0 / 3.0, 0.0)
    case AddOrClamp => Whole(P3)
    case DirectCopy => Weights(0.0, 0.0, 0.5, 0.0, 0.0, 0.5)
  }

  /**
   The weights of one GPU event: by the innermost range around its launching call unless that is a step
   range, else by the kernel-name rules, else by the shared kernels of the KV mode, else the rest of the model.
   */
  function Attribute(
      launched: bool, innermost: Option<Category>, byName: Option<Category>, shared: Option<SharedKernel>): (w: Weights)
    ensures Total(w) == 1.0
    ensures launched && innermost.Some? ==> w == Whole(innermost.value)
    ensures launched && innermost.None? && byName.Some? ==> w == Whole(byName.value)
    ensures launched && innermost.None? && byName.None? && shared.Some? ==>
              match shared.value
              case Float8Copy => w.p3 == 2.0 * w.k1 && w.p3 + w.k1 == 1.0
              case AddOrClamp => w.p3 == 1.0
              case DirectCopy => w.p3 == w.m && w.p3 + w.m == 1.0
    ensures !launched || (innermost.None? && byName.None? && shared.None?) ==> w.m == 1.0
  {
    if !launched then Whole(M)
    else if innermost.Some? then Whole(innermost.value)
    else if byName.Some? then Whole(byName.value)
    else if shared.Some? then SharedWeights(shared.value)
    else Whole(M)
  }

  function Add(acc: Weights, d: int, w: Weights): Weights {
    var x := d as real;
    Weights(acc.p1g + x * w.p1g, acc.p2 + x * w.p2, acc.p3 + x * w.p3, acc.p4 + x * w.p4, acc.k1 + x * w.k1,
            acc.m + x * w.m)
  }

  // ---------- the sweep ----------

  /** One GPU event with its weights and the kind of step that launched it, if known. */
  datatype Row = Row(start: int, end: int, weights: Weights, kind: Option<string>)

  /** One of the first `n` events covers instant `x`, its end clipped at `b`. */
  ghost predicate BusyAt(rows: seq<Row>, n: nat, b: int, x: int)
    requires n <= |rows|
  {
    exists i :: 0 <= i < n && rows[i].start <= x < Min(rows[i].end, b)
  }

  /** The instants of the window `[a, b)` that the first `n` events keep busy. */
  ghost function Busy(rows: seq<Row>, n: nat, a: int, b: int): set<int>
    requires n <= |rows|
  {
    set x: int | a <= x < b && BusyAt(rows, n, b, x)
  }

  predicate Inside(lo: int, x: int, hi: int) {
    lo <= x < hi
  }

  ghost function Span(lo: int, hi: int): set<int> {
    set x: int | lo <= x < hi && Inside(lo, x, hi)
  }

  lemma {:induction false} SpanSize(lo: int, hi: int)
    requires lo <= hi
    ensures |Span(lo, hi)| == hi - lo
    decreases hi - lo
  {
    if lo == hi {
      assert Span(lo, hi) == {};
    } else {
      SpanSize(lo, hi - 1);
      assert Span(lo, hi) == Span(lo, hi - 1) + {hi - 1};
    }
  }

  lemma BusyStep(rows: seq<Row>, k: nat, a: int, b: int)
    requires k < |rows| && a <= rows[k].start
    ensures Busy(rows, k + 1, a, b) == Busy(rows, k, a, b) + Span(rows[k].start, Min(rows[k].end, b))
  {
  }

  /** The events of the window: sorted by start, starting inside it, none of negative length. */
  ghost predicate InWindow(rows: seq<Row>, a: int, b: int) {
    && (forall i :: 0 <= i < |rows| ==> a <= rows[i].start < b && rows[i].start <= rows[i].end)
    && (forall i, j :: 0 <= i < j < |rows| ==> rows[i].start <= rows[j].start)
  }

  /** What the sweep knows: the current run `[s, e)` and everything before it. */
  ghost predicate Swept(done: set<int>, busy: int, s: int, e: int) {
    && s <= e && busy + (e - s) == |done|
    && Span(s, e) <= done && (forall x :: x in done ==> x < e)
  }

  lemma SweptGap(done: set<int>, busy: int, cs: int, ce: int, s: int, e: int)
    requires Swept(done, busy, cs, ce) && ce < s <= e
    ensures Swept(done + Span(s, e), busy + (ce - cs), s, e)
  {
    SpanSize(s, e);
    assert done !! Span(s, e);
    assert |done + Span(s, e)| == |done| + |Span(s, e)|;
  }

  lemma SweptJoin(done: set<int>, busy: int, cs: int, ce: int, s: int, e: int)
    requires Swept(done, busy, cs, ce) && cs <= s <= ce && s <= e
    ensures Swept(done + Span(s, e), busy, cs, if ce < e then e else ce)
  {
    if ce < e {
      SpanSize(ce, e);
      assert done + Span(s, e) == done + Span(ce, e) && done !! Span(ce, e);
      assert |done + Span(ce, e)| == |done| + |Span(ce, e)|;
    } else {
      assert done + Span(s, e) == done;
    }
  }

  /** The sweep variables after `n` events; before the first one there is no current run. */
  ghost predicate SweptUpTo(rows: seq<Row>, n: nat, a: int, b: int, busy: int, s: int, e: int)
    requires n <= |rows|
  {
    if n == 0 then busy == 0 else Swept(Busy(rows, n, a, b), busy, s, e) && s <= rows[n - 1].start
  }

  lemma FirstRun(rows: seq<Row>, a: int, b: int)
    requires InWindow(rows, a, b) && rows != []
    ensures SweptUpTo(rows, 1, a, b, 0, rows[0].start, Min(rows[0].end, b))
  {
    BusyStep(rows, 0, a, b);
    SpanSize(rows[0].start, Min(rows[0].end, b));
    assert Busy(rows, 1, a, b) == Span(rows[0].start, Min(rows[0].end, b));
  }

  lemma NextRun(rows: seq<Row>, n: nat, a: int, b: int, busy: int, s: int, e: int)
    requires InWindow(rows, a, b) && 0 < n < |rows| && SweptUpTo(rows, n, a, b, busy, s, e)
    ensures var lo, hi := rows[n].start, Min(rows[n].end, b);
      if lo > e then SweptUpTo(rows, n + 1, a, b, busy + (e - s), lo, hi)
      else SweptUpTo(rows, n + 1, a, b, busy, s, if e < hi then hi else e)
  {
    var lo, hi := rows[n].start, Min(rows[n].end, b);
    BusyStep(rows, n, a, b);
    if lo > e {
      SweptGap(Busy(rows, n, a, b), busy, s, e, lo, hi);
    } else {
      SweptJoin(Busy(rows, n, a, b), busy, s, e, lo, hi);
    }
  }

  // ---------- what is charged ----------

  function Share(w: Weights, c: Category): real {
    match c
    case P1g => w.p1g
    case P2 => w.p2
    case P3 => w.p3
    case P4 => w.p4
    case K1 => w.k1
    case M => w.m
  }

  /** The time one event takes of the window. */
  function Length(r: Row, b: int): int {
    Min(r.end, b) - r.start
  }

  /** The time the first `n` events charge to one category. */
  function Charge(rows: seq<Row>, n: nat, b: int, c: Category): real
    requires n <= |rows|
  {
    if n == 0 then 0.0
    else Charge(rows, n - 1, b, c) + Length(rows[n - 1], b) as real * Share(rows[n - 1].weights, c)
  }

  function EventTime(rows: seq<Row>, n: nat, b: int): int
    requires n <= |rows|
  {
    if n == 0 then 0 else EventTime(rows, n - 1, b) + Length(rows[n - 1], b)
  }

  /** `acc` holds what the first `n` events charge to each category. */
  ghost predicate ChargedUpTo(rows: seq<Row>, n: nat, b: int, acc: Weights)
    requires n <= |rows|
  {
    forall c :: Share(acc, c) == Charge(rows, n, b, c)
  }

  lemma ChargeNext(rows: seq<Row>, n: nat, b: int, acc: Weights)
    requires n < |rows| && ChargedUpTo(rows, n, b, acc)
    ensures ChargedUpTo(rows, n + 1, b, Add(acc, Length(rows[n], b), rows[n].weights))
  {
    var next := Add(acc, Length(rows[n], b), rows[n].weights);
    forall c ensures Share(next, c) == Charge(rows, n + 1, b, c) {
      assert Share(acc, c) == Charge(rows, n, b, c);
    }
  }

  /** What the first `n` events charge to all categories together. */
  function Charged(rows: seq<Row>, n: nat, b: int): real
    requires n <= |rows|
  {
    Charge(rows, n, b, P1g) + Charge(rows, n, b, P2) + Charge(rows, n, b, P3) +
    Charge(rows, n, b, P4) + Charge(rows, n, b, K1) + Charge(rows, n, b, M)
  }

  lemma SplitAddsUp(x: real, w: Weights)
    requires Total(w) == 1.0
    ensures x * w.p1g + x * w.p2 + x * w.p3 + x * w.p4 + x * w.k1 + x * w.m == x
  {
    assert x * w.p1g + x * w.p2 + x * w.p3 + x * w.p4 + x * w.k1 + x * w.m == x * Total(w);
  }

  lemma ChargedNext(rows: seq<Row>, n: nat, b: int)
    requires n < |rows| && Total(rows[n].weights) == 1.0
    ensures Charged(rows, n + 1, b) == Charged(rows, n, b) + Length(rows[n], b) as real
  {
    SplitAddsUp(Length(rows[n], b) as real, rows[n].weights);
  }

  /** Every event's time is charged completely, so the categories add up to the event time. */
  lemma {:induction false} ChargesAddUp(rows: seq<Row>, n: nat, b: int)
    requires n <= |rows|
    requires forall i :: 0 <= i < |rows| ==> Total(rows[i].weights) == 1.0
    ensures Charged(rows, n, b) == EventTime(rows, n, b) as real
  {
    if n > 0 {
      ChargesAddUp(rows, n - 1, b);
      assert Total(rows[n - 1].weights) == 1.0;
      ChargedNext(rows, n - 1, b);
    }
  }

  lemma TotalCharge(rows: seq<Row>, b: int, acc: Weights)
    requires ChargedUpTo(rows, |rows|, b, acc)
    requires forall i :: 0 <= i < |rows| ==> Total(rows[i].weights) == 1.0
    ensures Total(acc) == EventTime(rows, |rows|, b) as real
  {
    ChargesAddUp(rows, |rows|, b);
    assert Share(acc, P1g) == acc.p1g && Share(acc, P2) == acc.p2 && Share(acc, P3) == acc.p3;
    assert Share(acc, P4) == acc.p4 && Share(acc, K1) == acc.k1 && Share(acc, M) == acc.m;
  }

  // ---------- one window ----------

  /**
   The sweep of one window: `busy` is the measure of the union of the clipped events, idle time is between
   0 and the window length, and the category times add up to the total event time.
   */
  method Sweep(rows: seq<Row>, a: int, b: int) returns (busy: int, idle: int, acc: Weights)
    requires InWindow(rows, a, b) && a <= b
    requires forall i :: 0 <= i < |rows| ==> Total(rows[i].weights) == 1.0
    ensures busy == |Busy(rows, |rows|, a, b)|
    ensures idle == (b - a) - busy && 0 <= idle <= b - a
    ensures ChargedUpTo(rows, |rows|, b, acc) && Total(acc) == EventTime(rows, |rows|, b) as real
  {
    busy, acc := 0, Weights(0.0, 0.0, 0.0, 0.0, 0.0, 0.0);
    var curS, curE := 0, 0;
    var k := 0;
    while k < |rows|
      invariant 0 <= k <= |rows|
      invariant SweptUpTo(rows, k, a, b, busy, curS, curE) && ChargedUpTo(rows, k, b, acc)
    {
      var s, t := rows[k].start, Min(rows[k].end, b);
      ChargeNext(rows, k, b, acc);
      acc := Add(acc, t - s, rows[k].weights);
      if k == 0 {
        FirstRun(rows, a, b);
        curS, curE := s, t;
      } else {
        NextRun(rows, k, a, b, busy, curS, curE);
        if s > curE {
          busy := busy + (curE - curS);
          curS, curE := s, t;
        } else if curE < t {
          curE := t;
        }
      }
      k := k + 1;
    }
    if k > 0 {
      busy := busy + (curE - curS);
    } else {
      assert Busy(rows, 0, a, b) == {};
    }
    idle := (b - a) - busy;
    TotalCharge(rows, b, acc);
    WithinWindow(rows, a, b);
  }

  lemma WithinWindow(rows: seq<Row>, a: int, b: int)
    requires a <= b
    ensures |Busy(rows, |rows|, a, b)| <= b - a
  {
    SpanSize(a, b);
    var busy := Busy(rows, |rows|, a, b);
    var rest := Span(a, b) - busy;
    assert Span(a, b) == busy + rest;
    assert |Span(a, b)| == |busy| + |rest|;
  }

  /** `bisect_left(rows, (x,))`: the first row from `i` on that does not start before `x`. */
  function FirstAt(rows: seq<Row>, x: int, i: nat): (r: nat)
    requires i <= |rows|
    ensures i <= r <= |rows|
    ensures forall j :: i <= j < r ==> rows[j].start < x
    ensures r < |rows| ==> rows[r].start >= x
    decreases |rows| - i
  {
    if i == |rows| || rows[i].start >= x then i else FirstAt(rows, x, i + 1)
  }

  /** The two bisections cut out exactly the events that start in the window. */
  lemma SliceIsWindow(rows: seq<Row>, a: int, b: int)
    requires a <= b && InWindowOrder(rows)
    ensures FirstAt(rows, a, 0) <= FirstAt(rows, b, 0)
    ensures InWindow(rows[FirstAt(rows, a, 0)..FirstAt(rows, b, 0)], a, b)
    ensures forall i :: 0 <= i < |rows| ==>
              (a <= rows[i].start < b <==> FirstAt(rows, a, 0) <= i < FirstAt(rows, b, 0))
  {
    var i0, i1 := FirstAt(rows, a, 0), FirstAt(rows, b, 0);
    forall i | 0 <= i < |rows| ensures rows[i].start >= a <==> i >= i0 {
      if i > i0 { assert rows[i0].start <= rows[i].start; }
    }
    forall i | 0 <= i < |rows| ensures rows[i].start >= b <==> i >= i1 {
      if i > i1 { assert rows[i1].start <= rows[i].start; }
    }
  }

  ghost predicate InWindowOrder(rows: seq<Row>) {
    && (forall i :: 0 <= i < |rows| ==> rows[i].start <= rows[i].end)
    && (forall i, j :: 0 <= i < j < |rows| ==> rows[i].start <= rows[j].start)
  }

  /** The instants of `[a, b)` covered by events of the whole trace that start in `[a, b)`. */
  ghost predicate StartedBusyAt(rows: seq<Row>, a: int, b: int, x: int) {
    exists i :: 0 <= i < |rows| && a <= rows[i].start < b && rows[i].start <= x < Min(rows[i].end, b)
  }

  lemma SliceBusy(rows: seq<Row>, i0: nat, i1: nat, a: int, b: int, x: int)
    requires i0 <= i1 <= |rows|
    requires forall i :: 0 <= i < |rows| ==> (a <= rows[i].start < b <==> i0 <= i < i1)
    ensures BusyAt(rows[i0..i1], i1 - i0, b, x) <==> StartedBusyAt(rows, a, b, x)
  {
    if BusyAt(rows[i0..i1], i1 - i0, b, x) {
      var j :| 0 <= j < i1 - i0 && rows[i0..i1][j].start <= x < Min(rows[i0..i1][j].end, b);
      assert rows[i0 + j] == rows[i0..i1][j];
    }
    if StartedBusyAt(rows, a, b, x) {
      var i :| 0 <= i < |rows| && a <= rows[i].start < b && rows[i].start <= x < Min(rows[i].end, b);
      assert rows[i0..i1][i - i0] == rows[i];
    }
  }

  predicate Foreign(r: Row, name: string) {
    r.kind.Some? && r.kind.value != name
  }

  datatype Measured = Measured(busy: int, idle: int, acc: Weights)

  /** The events of the trace that start in the window. */
  function Cut(rows: seq<Row>, a: int, b: int): seq<Row>
    requires FirstAt(rows, a, 0) <= FirstAt(rows, b, 0)
  {
    rows[FirstAt(rows, a, 0)..FirstAt(rows, b, 0)]
  }

  lemma CutHasForeign(rows: seq<Row>, a: int, b: int, name: string)
    requires a <= b && InWindowOrder(rows)
    ensures FirstAt(rows, a, 0) <= FirstAt(rows, b, 0)
    ensures (exists j :: 0 <= j < |Cut(rows, a, b)| && Foreign(Cut(rows, a, b)[j], name)) <==>
            (exists i :: 0 <= i < |rows| && a <= rows[i].start < b && Foreign(rows[i], name))
  {
    SliceIsWindow(rows, a, b);
    var i0 := FirstAt(rows, a, 0);
    if exists i :: 0 <= i < |rows| && a <= rows[i].start < b && Foreign(rows[i], name) {
      var i :| 0 <= i < |rows| && a <= rows[i].start < b && Foreign(rows[i], name);
      assert Cut(rows, a, b)[i - i0] == rows[i];
    }
  }

  /** One window of the whole sorted trace; it is dropped when a step of another kind launched an event in it. */
  method MeasureWindow(rows: seq<Row>, a: int, b: int, name: string) returns (r: Option<Measured>)
    requires InWindowOrder(rows) && a <= b
    requires forall i :: 0 <= i < |rows| ==> Total(rows[i].weights) == 1.0
    ensures r.None? <==> exists i :: 0 <= i < |rows| && a <= rows[i].start < b && Foreign(rows[i], name)
    ensures r.Some? ==> r.value.busy == |set x: int | a <= x < b && StartedBusyAt(rows, a, b, x)|
    ensures r.Some? ==> r.value.idle == (b - a) - r.value.busy && 0 <= r.value.idle
    ensures r.Some? ==>
              && FirstAt(rows, a, 0) <= FirstAt(rows, b, 0)
              && ChargedUpTo(Cut(rows, a, b), |Cut(rows, a, b)|, b, r.value.acc)
              && Total(r.value.acc) == EventTime(Cut(rows, a, b), |Cut(rows, a, b)|, b) as real
  {
    SliceIsWindow(rows, a, b);
    CutHasForeign(rows, a, b, name);
    var cut := Cut(rows, a, b);
    if exists j :: 0 <= j < |cut| && Foreign(cut[j], name) {
      return None;
    }
    var busy, idle, acc := Sweep(cut, a, b);
    CutBusy(rows, a, b);
    r := Some(Measured(busy, idle, acc));
  }

  lemma CutBusy(rows: seq<Row>, a: int, b: int)
    requires InWindowOrder(rows) && a <= b && FirstAt(rows, a, 0) <= FirstAt(rows, b, 0)
    ensures Busy(Cut(rows, a, b), |Cut(rows, a, b)|, a, b) == set x: int | a <= x < b && StartedBusyAt(rows, a, b, x)
  {
    SliceIsWindow(rows, a, b);
    var i0, i1 := FirstAt(rows, a, 0), FirstAt(rows, b, 0);
    forall x: int ensures BusyAt(rows[i0..i1], i1 - i0, b, x) <==> StartedBusyAt(rows, a, b, x) {
      SliceBusy(rows, i0, i1, a, b, x);
    }
  }

  // ---------- windows ----------

  datatype Step = Step(time: int, name: string)

  /** Consecutive steps that start with the wanted kind, from the sorted list of all steps. */
  function Windows(steps: seq<Step>, name: string): seq<(int, int)> {
    if |steps| < 2 then []
    else
      var earlier, a, b := Windows(steps[..|steps| - 1], name), steps[|steps| - 2], steps[|steps| - 1];
      if a.name == name then earlier + [(a.time, b.time)] else earlier
  }

  /** In time order, not overlapping, and over by `last`. */
  ghost predicate InOrder(w: seq<(int, int)>, last: int) {
    && (forall i :: 0 <= i < |w| ==> w[i].0 <= w[i].1 <= last)
    && (forall i, j :: 0 <= i < j < |w| ==> w[i].1 <= w[j].0)
  }

  /** The windows come in time order and do not overlap, so no event is charged to two of them. */
  lemma {:induction false} WindowsDisjoint(steps: seq<Step>, name: string, last: int)
    requires forall i, j :: 0 <= i < j < |steps| ==> steps[i].time <= steps[j].time
    requires forall i :: 0 <= i < |steps| ==> steps[i].time <= last
    ensures InOrder(Windows(steps, name), last)
  {
    if |steps| >= 2 {
      WindowsDisjoint(steps[..|steps| - 1], name, steps[|steps| - 2].time);
      assert steps[|steps| - 2].time <= steps[|steps| - 1].time <= last;
    }
  }
}
