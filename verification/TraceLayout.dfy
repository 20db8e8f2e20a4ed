/** The layout pass as an object: its dictionaries and lists are updated span by span. */
module LayoutPass {
  import opened SpanLayout
  import opened SpanLayoutTheorems

  /** The placements of one request, which starts without remembered lines. */
  function RequestOps(spans: seq<(Pid, Interval)>): seq<Op> {
    [NewRequest] + seq(|spans|, i requires 0 <= i < |spans| => Put(spans[i].0, spans[i].1))
  }

  /** The placements of all requests, one after the other. */
  function AllOps(requests: seq<seq<(Pid, Interval)>>): seq<Op> {
    if requests == [] then []
    else AllOps(requests[..|requests| - 1]) + RequestOps(requests[|requests| - 1])
  }

  ghost predicate Composes(l: Layout, a: seq<Op>, b: seq<Op>)
    requires StatusInv(l)
  {
    Run(l, a + b) == Run(Run(l, a), b)
  }

  lemma ComposesNext(l: Layout, a: seq<Op>, front: seq<Op>, op: Op, b: seq<Op>)
    requires StatusInv(l) && Composes(l, a, front) && b == front + [op]
    ensures Composes(l, a, b)
  {
    assert a + b == (a + front) + [op];
    RunStep(l, a + front, op);
    RunStep(Run(l, a), front, op);
  }

  /** Placements made in two goes are placements made in one. */
  lemma {:induction false} RunConcat(l: Layout, a: seq<Op>, b: seq<Op>)
    requires StatusInv(l)
    ensures Composes(l, a, b)
  {
    if b == [] {
      assert a + b == a;
    } else {
      RunConcat(l, a, b[..|b| - 1]);
      ComposesNext(l, a, b[..|b| - 1], b[|b| - 1], b);
    }
  }

  lemma NoSpansYet(l: Layout)
    requires StatusInv(l)
    ensures Run(l, RequestOps([])) == l.(status := map[])
  {
    assert RequestOps([]) == [] + [NewRequest];
    RunStep(l, [], NewRequest);
  }

  lemma OneSpanMore(l: Layout, spans: seq<(Pid, Interval)>, i: nat)
    requires StatusInv(l) && i < |spans|
    ensures Run(l, RequestOps(spans[..i + 1])) ==
              Place(Run(l, RequestOps(spans[..i])), spans[i].0, spans[i].1)
  {
    var op := Put(spans[i].0, spans[i].1);
    assert RequestOps(spans[..i + 1]) == RequestOps(spans[..i]) + [op];
    RunStep(l, RequestOps(spans[..i]), op);
  }

  class TraceLayout {
    var graph: map<Pid, seq<Line>>
    var status: map<Pid, nat>
    var slots: seq<Slot>

    ghost function View(): Layout
      reads this
    {
      Layout(graph, status, slots)
    }

    constructor ()
      ensures View() == Empty()
    {
      graph, status, slots := map[], map[], [];
    }

    /** Stick to the request's line if the span fits there, else take the first that fits, else a new one. */
    method FindLine(pid: Pid, start: int, end: int) returns (line: nat)
      requires StatusInv(View())
      modifies this
      ensures line == Choose(old(View()), pid, start, end) && View() == Opened(old(View()), pid, start, end)
    {
      if pid in status {
        line := status[pid];
        if start == end || !CheckOverlap(graph[pid][line - 1], start, end) {
          assert status == status[pid := line];
          return;
        }
      }
      if pid !in graph {
        line := 1;
        assert Lines(View(), pid) + [[]] == [[]];
        graph := graph[pid := [[]]];
        status := status[pid := line];
        slots := slots + [Slot(pid, line)];
        return;
      }
      var i := 0;
      while i < |graph[pid]|
        invariant View() == old(View()) && 0 <= i <= |graph[pid]|
        invariant FirstFit(graph[pid], start, end, 0) == FirstFit(graph[pid], start, end, i)
      {
        if !CheckOverlap(graph[pid][i], start, end) {
          line := i + 1;
          status := status[pid := line];
          return;
        }
        i := i + 1;
      }
      line := |graph[pid]| + 1;
      graph := graph[pid := graph[pid] + [[]]];
      status := status[pid := line];
      slots := slots + [Slot(pid, line)];
    }

    /** Find a line for the span and insert it there. */
    method PlaceSpan(pid: Pid, x: Interval) returns (line: nat)
      requires StatusInv(View())
      modifies this
      ensures line == Choose(old(View()), pid, x.start, x.end) && View() == Place(old(View()), pid, x)
      ensures StatusInv(View())
    {
      PlaceKeepsStatus(View(), pid, x);
      line := FindLine(pid, x.start, x.end);
      graph := graph[pid := graph[pid][line - 1 := Insert(graph[pid][line - 1], x)]];
    }

    /** The engine requests, whose order and the order of whose spans has been settled by sorting. */
    method LayoutRequests(requests: seq<seq<(Pid, Interval)>>)
      requires StatusInv(View())
      modifies this
      ensures StatusInv(View()) && View() == Run(old(View()), AllOps(requests))
    {
      ghost var l := View();
      var r := 0;
      while r < |requests|
        invariant 0 <= r <= |requests|
        invariant StatusInv(View()) && View() == Run(l, AllOps(requests[..r]))
      {
        LayoutRequest(requests[r]);
        RunConcat(l, AllOps(requests[..r]), RequestOps(requests[r]));
        assert requests[..r + 1][..r] == requests[..r];
        r := r + 1;
      }
      assert requests[..r] == requests;
    }

    method LayoutRequest(spans: seq<(Pid, Interval)>)
      requires StatusInv(View())
      modifies this
      ensures StatusInv(View()) && View() == Run(old(View()), RequestOps(spans))
    {
      ghost var l := View();
      status := map[];
      NoSpansYet(l);
      var i := 0;
      while i < |spans|
        invariant 0 <= i <= |spans|
        invariant StatusInv(View()) && View() == Run(l, RequestOps(spans[..i]))
      {
        OneSpanMore(l, spans, i);
        var _ := PlaceSpan(spans[i].0, spans[i].1);
        i := i + 1;
      }
      assert spans[..i] == spans;
    }

    /** The gateway spans, sorted by start: one process, one set of remembered lines. */
    method LayoutGateway(spans: seq<Interval>) returns (tids: seq<nat>)
      requires StatusInv(View())
      modifies this
      ensures StatusInv(View())
      ensures (View(), tids) == PlaceAll(old(View()).(status := map[]), Smg, spans)
      ensures old(GoodInv(View())) && Smg !in old(graph) && StartSorted(spans) && AllPositive(spans) ==>
                && (forall t :: |Active(spans, t)| <= |Lines(View(), Smg)|)
                && (exists t :: |Active(spans, t)| == |Lines(View(), Smg)|)
    {
      status := map[];
      ghost var l := View();
      tids := [];
      var i := 0;
      while i < |spans|
        invariant 0 <= i <= |spans|
        invariant StatusInv(View()) && (View(), tids) == PlaceAll(l, Smg, spans[..i])
      {
        PlaceAllNext(l, Smg, spans[..i], spans[i], spans[..i + 1]);
        var line := PlaceSpan(Smg, spans[i]);
        tids := tids + [line];
        i := i + 1;
      }
      assert spans[..i] == spans;
      if old(GoodInv(View())) && Smg !in old(graph) && StartSorted(spans) && AllPositive(spans) {
        GatewayDepth(old(View()), l, spans);
      }
    }
  }

  lemma GatewayDepth(before: Layout, l: Layout, spans: seq<Interval>)
    requires GoodInv(before) && Smg !in before.graph && l == before.(status := map[])
    requires StartSorted(spans) && AllPositive(spans) && StatusInv(l)
    ensures var n := |Lines(PlaceAll(l, Smg, spans).0, Smg)|;
      && (forall t :: |Active(spans, t)| <= n)
      && (exists t :: |Active(spans, t)| == n)
  {
    assert forall p :: Lines(l, p) == Lines(before, p);
    LinesAreDepth(l, Smg, spans);
  }
}
