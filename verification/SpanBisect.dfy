/**
 The list operations of a layout line as the library does them, by bisection, and why that is sound: no placement,
 whatever the span, takes a line out of pair order.
 */
module SpanBisect {
  import opened SpanLayout
  import opened SpanLayoutTheorems
  import opened SpanLayoutDegenerate

  /** Python's order on pairs, with repetitions. */
  ghost predicate Ordered(line: Line) {
    forall i, j :: 0 <= i < j < |line| ==> !Below(line[j], line[i])
  }

  lemma BelowChain(a: Interval, b: Interval, c: Interval)
    ensures Below(a, b) && !Below(c, b) ==> Below(a, c)
    ensures !Below(b, a) && Below(b, c) ==> Below(a, c)
  {
  }

  /** On an ordered line the rank divides the smaller pairs from the others. */
  lemma PairsSplit(line: Line, x: Interval)
    requires Ordered(line)
    ensures forall i :: 0 <= i < |line| ==> (Below(line[i], x) <==> i < PairRank(line, x))
  {
    var p := PairRank(line, x);
    forall i | p <= i < |line| ensures !Below(line[i], x) {
      if i > p {
        assert !Below(line[i], line[p]);
        BelowChain(line[i], x, line[p]);
      }
    }
  }

  lemma StartsSplit(line: Line, start: int)
    requires Ordered(line)
    ensures forall i :: 0 <= i < |line| ==> (line[i].start < start <==> i < StartRank(line, start))
  {
    var r := StartRank(line, start);
    forall i | r <= i < |line| ensures line[i].start >= start {
      if i > r { assert !Below(line[i], line[r]); }
    }
  }

  lemma InsertKeepsOrdered(line: Line, x: Interval)
    requires Ordered(line)
    ensures Ordered(Insert(line, x))
  {
    var p := PairRank(line, x);
    PairsSplit(line, x);
    OrderedBetween(line[..p], x, line[p..]);
  }

  lemma OrderedBetween(a: Line, x: Interval, b: Line)
    requires Ordered(a + b) && (forall i :: 0 <= i < |a| ==> Below(a[i], x)) && forall i :: 0 <= i < |b| ==> !Below(b[i], x)
    ensures Ordered(a + [x] + b)
  {
    var l, line := a + [x] + b, a + b;
    forall i, j | 0 <= i < j < |l| ensures !Below(l[j], l[i]) {
      var i', j' := if i < |a| then i else i - 1, if j < |a| then j else j - 1;
      assert i != |a| ==> l[i] == line[i'];
      assert j != |a| ==> l[j] == line[j'];
      if i != |a| && j != |a| { assert !Below(line[j'], line[i']); }
    }
  }

  ghost predicate OrderedInv(l: Layout) {
    forall p, k :: 0 <= k < |Lines(l, p)| ==> Ordered(Lines(l, p)[k])
  }

  lemma PlaceKeepsOrdered(l: Layout, pid: Pid, x: Interval)
    requires StatusInv(l) && OrderedInv(l)
    ensures OrderedInv(Place(l, pid, x))
  {
    var t, line, lines := Place(l, pid, x), Choose(l, pid, x.start, x.end), Lines(l, pid);
    PlaceLines(l, pid, x);
    if line <= |lines| { InsertKeepsOrdered(lines[line - 1], x); }
    forall p, k | 0 <= k < |Lines(t, p)| ensures Ordered(Lines(t, p)[k]) {
      if p != pid { assert Lines(t, p) == Lines(l, p); }
    }
  }

  /** After any placements, spans without positive length included, every line is in pair order. */
  lemma {:induction false} OrderedAfterAnyRun(l: Layout, ops: seq<Op>)
    requires StatusInv(l) && OrderedInv(l)
    ensures OrderedInv(Run(l, ops))
  {
    if ops != [] {
      var before, op := Run(l, ops[..|ops| - 1]), ops[|ops| - 1];
      OrderedAfterAnyRun(l, ops[..|ops| - 1]);
      if op.Put? {
        PlaceKeepsOrdered(before, op.pid, op.span);
      } else {
        assert forall p :: Lines(Run(l, ops), p) == Lines(before, p);
      }
    }
  }

  // ---------- bisection ----------

  /** `bisect_left(intervals, (start, -inf))`: on an ordered line it finds what a scan from the front would. */
  method BisectStart(line: Line, start: int) returns (lo: nat)
    requires Ordered(line)
    ensures lo == StartRank(line, start)
  {
    StartsSplit(line, start);
    lo := 0;
    var hi := |line|;
    while lo < hi
      invariant 0 <= lo <= StartRank(line, start) <= hi <= |line|
    {
      var mid := (lo + hi) / 2;
      if line[mid].start < start {
        lo := mid + 1;
      } else {
        hi := mid;
      }
    }
  }

  /** `bisect_left(intervals, x)`. */
  method BisectPair(line: Line, x: Interval) returns (lo: nat)
    requires Ordered(line)
    ensures lo == PairRank(line, x)
  {
    PairsSplit(line, x);
    lo := 0;
    var hi := |line|;
    while lo < hi
      invariant 0 <= lo <= PairRank(line, x) <= hi <= |line|
    {
      var mid := (lo + hi) / 2;
      if Below(line[mid], x) {
        lo := mid + 1;
      } else {
        hi := mid;
      }
    }
  }

  /** The overlap check of a line container. */
  method Check(line: Line, start: int, end: int) returns (hit: bool)
    requires Ordered(line)
    ensures hit == CheckOverlap(line, start, end)
  {
    var i := BisectStart(line, start);
    hit := (i > 0 && line[i - 1].end > start) || (i < |line| && line[i].start < end);
  }

  /** `insort_left`. */
  method Insort(line: Line, x: Interval) returns (r: Line)
    requires Ordered(line)
    ensures r == Insert(line, x) && Ordered(r)
  {
    var i := BisectPair(line, x);
    r := line[..i] + [x] + line[i..];
    InsertKeepsOrdered(line, x);
  }

  /** Hence the exact condition for the overlap check holds of every line of every run. */
  lemma AnyRunAgreesIff(ops: seq<Op>, pid: Pid, k: nat)
    requires k < |Lines(Run(Empty(), ops), pid)|
    ensures var line := Lines(Run(Empty(), ops), pid)[k]; Agrees(line) <==> NothingHidden(line)
  {
    OrderedAfterAnyRun(Empty(), ops);
    var line := Lines(Run(Empty(), ops), pid)[k];
    assert StartOrdered(line) by {
      forall i, j | 0 <= i < j < |line| ensures line[i].start <= line[j].start { assert !Below(line[j], line[i]); }
    }
    AgreesExact(line);
  }
}
