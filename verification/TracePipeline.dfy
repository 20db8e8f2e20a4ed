/** The conversion pass and the layout pass together. */
module TracePipeline {
  import opened SpanForest
  import opened SpanLayout
  import opened SpanLayoutTheorems
  import opened LayoutPass

  /** One request's spans with the times the layout pass sees. */
  function Timed(request: seq<(Pid, nat)>, starts: seq<int>, ends: seq<int>): (r: seq<(Pid, Interval)>)
    requires |starts| == |ends| && forall i :: 0 <= i < |request| ==> request[i].1 < |starts|
    ensures |r| == |request|
  {
    seq(|request|, i requires 0 <= i < |request| =>
      (request[i].0, Interval(starts[request[i].1], ends[request[i].1])))
  }

  ghost predicate AllLong(requests: seq<seq<(Pid, Interval)>>) {
    forall r, i :: 0 <= r < |requests| && 0 <= i < |requests[r]| ==> requests[r][i].1.start < requests[r][i].1.end
  }

  lemma {:induction false} AllOpsPositive(requests: seq<seq<(Pid, Interval)>>)
    requires AllLong(requests)
    ensures forall k :: 0 <= k < |AllOps(requests)| && AllOps(requests)[k].Put? ==>
              AllOps(requests)[k].span.start < AllOps(requests)[k].span.end
  {
    if requests != [] {
      var front, last := requests[..|requests| - 1], requests[|requests| - 1];
      AllOpsPositive(front);
      assert forall i :: 0 <= i < |last| ==> last[i].1.start < last[i].1.end;
    }
  }

  /**
   Spans that last more than 1000 ns before the conversion pass are laid out without overlap, whatever the ids: with
   the end times that pass leaves behind, every line of every process is sorted and disjoint.
   */
  lemma LongSpansStayApart(
      spans: seq<Span>, starts: seq<int>, was: seq<int>, now: seq<int>, requests: seq<seq<(Pid, nat)>>,
      timed: seq<seq<(Pid, Interval)>>, pid: Pid, k: nat)
    requires |starts| == |was| == |now| == |spans|
    requires forall u: nat :: u < |spans| ==> now[u] == was[u] - if Deep(spans, [], u) then 1000 else 0
    requires forall r, i :: 0 <= r < |requests| && 0 <= i < |requests[r]| ==>
               requests[r][i].1 < |spans| && was[requests[r][i].1] - starts[requests[r][i].1] > 1000
    requires |timed| == |requests| && forall r :: 0 <= r < |requests| ==> timed[r] == Timed(requests[r], starts, now)
    requires k < |Lines(Run(Empty(), AllOps(timed)), pid)|
    ensures Good(Lines(Run(Empty(), AllOps(timed)), pid)[k])
  {
    forall r, i | 0 <= r < |timed| && 0 <= i < |timed[r]| ensures timed[r][i].1.start < timed[r][i].1.end {
      var v := requests[r][i].1;
      assert now[v] >= was[v] - 1000;
    }
    AllOpsPositive(timed);
    LinesOfAnyRun(AllOps(timed), pid, k, 0, 1);
  }
}
