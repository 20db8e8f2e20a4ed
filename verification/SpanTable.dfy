/** The span dictionaries as one table, with the passes that update it in place. */
module SpanPasses {
  import opened Wrappers
  import opened Sums
  import opened SpanForest
  import opened SpanTops

  /** `span_id_map`: with duplicated ids, the last span wins. */
  method IndexIds(spans: seq<Span>) returns (idMap: map<string, nat>)
    ensures IsIndex(spans, idMap)
  {
    idMap := map[];
    var i := 0;
    while i < |spans|
      invariant 0 <= i <= |spans|
      invariant forall id :: id in idMap <==> LastWithId(spans, id, i).Some?
      invariant forall id :: id in idMap ==> LastWithId(spans, id, i) == Some(idMap[id])
    {
      idMap := idMap[spans[i].id := i];
      i := i + 1;
    }
  }

  /** `span_id_map` leads each id to the last span that has it. */
  ghost predicate IsIndex(spans: seq<Span>, idMap: map<string, nat>) {
    && (forall id :: id in idMap <==> LastWithId(spans, id, |spans|).Some?)
    && (forall id :: id in idMap ==> LastWithId(spans, id, |spans|) == Some(idMap[id]))
  }

  /** The links of one span: the spans their ids lead to. */
  method ResolveLinks(spans: seq<Span>, idMap: map<string, nat>, ids: seq<string>) returns (links: seq<nat>)
    requires IsIndex(spans, idMap)
    ensures links == LinkTargets(spans, ids, |ids|)
  {
    links := [];
    var k := 0;
    while k < |ids|
      invariant 0 <= k <= |ids| && links == LinkTargets(spans, ids, k)
    {
      if ids[k] in idMap {
        links := links + [idMap[ids[k]]];
      }
      k := k + 1;
    }
  }

  /** The tree after the first `i` spans. */
  ghost predicate TreeUpTo(spans: seq<Span>, children: seq<seq<nat>>, roots: seq<nat>, i: nat) {
    && i <= |spans| == |children| && roots == RootsUpTo(spans, i)
    && forall v :: 0 <= v < |spans| ==> children[v] == ChildrenUpTo(spans, v, i)
  }

  /** The links of the first `i` spans. */
  ghost predicate LinksUpTo(spans: seq<Span>, links: seq<seq<nat>>, i: nat) {
    && i <= |spans| && |links| == i
    && forall v :: 0 <= v < i ==> links[v] == LinkTargets(spans, spans[v].links, |spans[v].links|)
  }

  lemma LinksNext(spans: seq<Span>, links: seq<seq<nat>>, i: nat, targets: seq<nat>)
    requires i < |spans| && LinksUpTo(spans, links, i)
    requires targets == LinkTargets(spans, spans[i].links, |spans[i].links|)
    ensures LinksUpTo(spans, links + [targets], i + 1)
  {
  }

  /** One span more: it joins the roots, or its parent's children, or neither. */
  lemma TreeNext(spans: seq<Span>, idMap: map<string, nat>, children: seq<seq<nat>>, roots: seq<nat>, i: nat)
    requires i < |spans| && IsIndex(spans, idMap) && TreeUpTo(spans, children, roots, i)
    ensures var s := spans[i];
      if s.isRequest then TreeUpTo(spans, children, roots + [i], i + 1)
      else if s.parent in idMap then
        && idMap[s.parent] < |children|
        && TreeUpTo(spans, children[idMap[s.parent] := children[idMap[s.parent]] + [i]], roots, i + 1)
      else TreeUpTo(spans, children, roots, i + 1)
  {
    assert Parent(spans, i) ==
           if spans[i].isRequest || spans[i].parent !in idMap then None else Some(idMap[spans[i].parent]);
  }

  /** The child lists, filled span by span, the request spans, and the links of every span. */
  method BuildSpanTree(spans: seq<Span>)
      returns (children: seq<seq<nat>>, roots: seq<nat>, links: seq<seq<nat>>)
    ensures |children| == |spans| == |links|
    ensures forall v :: 0 <= v < |spans| ==> children[v] == Children(spans, v)
    ensures roots == Roots(spans)
    ensures forall v :: 0 <= v < |spans| ==> links[v] == LinkTargets(spans, spans[v].links, |spans[v].links|)
  {
    var n := |spans|;
    var idMap := IndexIds(spans);
    children, roots, links := seq(n, _ => []), [], [];
    var i := 0;
    while i < n
      invariant 0 <= i <= n && TreeUpTo(spans, children, roots, i) && LinksUpTo(spans, links, i)
    {
      TreeNext(spans, idMap, children, roots, i);
      if spans[i].isRequest {
        roots := roots + [i];
      } else if spans[i].parent in idMap {
        var p := idMap[spans[i].parent];
        children := children[p := children[p] + [i]];
      }
      var targets := ResolveLinks(spans, idMap, spans[i].links);
      LinksNext(spans, links, i, targets);
      links := links + [targets];
      i := i + 1;
    }
  }

  /** End times after the spans in `visits` have each been trimmed by 1000 ns per visit. */
  ghost function Trimmed(a: seq<int>, visits: seq<nat>): (r: seq<int>)
    ensures |r| == |a|
  {
    seq(|a|, (u: nat) requires u < |a| => a[u] - 1000 * Occurrences<nat>(visits, u))
  }

  /** Thread ids after the spans in `visits` have been put on `line`. */
  ghost function Tagged(a: seq<int>, visits: seq<nat>, line: int): (r: seq<int>)
    ensures |r| == |a|
  {
    seq(|a|, (u: nat) requires u < |a| => if Occurrences<nat>(visits, u) > 0 then line else a[u])
  }

  lemma VisitOne(v: nat, u: nat)
    ensures Occurrences([v] + [], u) == Occurrences([v], u) == One(u == v)
  {
    OccurrencesPush([], v, u);
    assert [] + [v] == [v] && [v] + [] == [v];
  }

  lemma TrimmedOne(a: seq<int>, v: nat)
    requires v < |a|
    ensures a[v := a[v] - 1000] == Trimmed(a, [v] + [])
  {
    forall u: nat | u < |a| ensures Trimmed(a, [v] + [])[u] == a[v := a[v] - 1000][u] {
      VisitOne(v, u);
    }
  }

  lemma TrimmedMore(a: seq<int>, x: seq<nat>, y: seq<nat>)
    ensures Trimmed(Trimmed(a, x), y) == Trimmed(a, x + y)
  {
    forall u: nat | u < |a| ensures Trimmed(Trimmed(a, x), y)[u] == Trimmed(a, x + y)[u] {
      OccurrencesConcat(x, y, u);
    }
  }

  lemma TaggedOne(a: seq<int>, v: nat, line: int)
    requires v < |a|
    ensures a[v := line] == Tagged(a, [v] + [], line)
  {
    forall u: nat | u < |a| ensures Tagged(a, [v] + [], line)[u] == a[v := line][u] {
      VisitOne(v, u);
    }
  }

  lemma TaggedMore(a: seq<int>, x: seq<nat>, y: seq<nat>, line: int)
    ensures Tagged(Tagged(a, x, line), y, line) == Tagged(a, x + y, line)
  {
    forall u: nat | u < |a| ensures Tagged(Tagged(a, x, line), y, line)[u] == Tagged(a, x + y, line)[u] {
      OccurrencesConcat(x, y, u);
    }
  }

  lemma OneChildMore(spans: seq<Span>, p: seq<nat>, kids: seq<nat>, i: nat)
    requires IsPath(spans, p) && kids == Children(spans, Last(p)) && i < |kids|
    ensures IsPath(spans, p + [kids[i]]) && Last(p + [kids[i]]) == kids[i] && |p| < |spans|
    ensures VisitsOf(spans, p, kids[..i + 1]) == VisitsOf(spans, p, kids[..i]) + Visits(spans, p + [kids[i]])
    ensures [Last(p)] + VisitsOf(spans, p, kids[..i + 1]) ==
              ([Last(p)] + VisitsOf(spans, p, kids[..i])) + Visits(spans, p + [kids[i]])
  {
    PathExtends(spans, p, kids[i]);
    PathsAreShort(spans, p + [kids[i]]);
    assert kids[..i + 1][..i] == kids[..i];
    VisitsOfLast(spans, p, kids[..i + 1]);
  }

  lemma VisitsOfLast(spans: seq<Span>, p: seq<nat>, kids: seq<nat>)
    requires IsPath(spans, p) && kids != [] && |kids| <= |spans|
    requires forall c :: c in kids ==> c in Children(spans, Last(p))
    requires IsPath(spans, p + [kids[|kids| - 1]])
    ensures VisitsOf(spans, p, kids) ==
              VisitsOf(spans, p, kids[..|kids| - 1]) + Visits(spans, p + [kids[|kids| - 1]])
  {
  }

  /** The end times after the passes over some top-level spans. */
  ghost predicate TrimmedBelow(spans: seq<Span>, vs: seq<nat>, was: seq<int>, now: seq<int>) {
    |was| == |now| && forall u: nat :: u < |now| ==> now[u] == was[u] - 1000 * VisitsBelow(spans, vs, u)
  }

  lemma TrimmedBelowNone(spans: seq<Span>, was: seq<int>)
    ensures TrimmedBelow(spans, [], was, was) && BelowRoots(spans, 0) == []
  {
  }

  lemma TrimmedBelowMore(
      spans: seq<Span>, a: seq<nat>, b: seq<nat>, was: seq<int>, mid: seq<int>, now: seq<int>)
    requires TrimmedBelow(spans, a, was, mid) && TrimmedBelow(spans, b, mid, now)
    ensures TrimmedBelow(spans, a + b, was, now)
  {
    forall u: nat | u < |now| ensures now[u] == was[u] - 1000 * VisitsBelow(spans, a + b, u) {
      VisitsBelowConcat(spans, a, b, u);
    }
  }

  lemma TrimmedBelowOne(spans: seq<Span>, v: nat, was: seq<int>, now: seq<int>)
    requires IsTop(spans, v) && IsPath(spans, TopPath(spans, v)) && now == Trimmed(was, Visits(spans, TopPath(spans, v)))
    ensures TrimmedBelow(spans, [v], was, now)
  {
    forall u: nat | u < |now| ensures now[u] == was[u] - 1000 * VisitsBelow(spans, [v], u) {
      VisitsBelowOne(spans, v, u);
    }
  }

  lemma TrimmedOnce(spans: seq<Span>, vs: seq<nat>, before: seq<int>, after: seq<int>)
    requires |before| == |spans| && IsTopList(spans, vs) && TrimmedBelow(spans, vs, before, after)
    ensures |after| == |spans|
    ensures forall u: nat :: u < |spans| ==> after[u] == before[u] - if Deep(spans, [], u) then 1000 else 0
  {
    forall u: nat | u < |spans| ensures after[u] == before[u] - if Deep(spans, [], u) then 1000 else 0 {
      AllVisitedOnce(spans, vs, u);
    }
  }

  /** The thread ids after the first `n` top-level spans have been put on their lines, subtrees included. */
  ghost predicate TaggedUpTo(
      spans: seq<Span>, tops: seq<seq<nat>>, lines: seq<int>, n: nat, was: seq<int>, now: seq<int>)
    requires n <= |tops| == |lines| && |was| == |now|
  {
    && (forall k, u: nat :: 0 <= k < n && u < |now| && Under(spans, tops[k], u) ==> now[u] == lines[k])
    && (forall u: nat :: u < |now| && !UnderAny(spans, tops, n, u) ==> now[u] == was[u])
  }

  lemma TaggedNext(
      spans: seq<Span>, tops: seq<seq<nat>>, lines: seq<int>, n: nat, was: seq<int>, mid: seq<int>, now: seq<int>)
    requires IsTops(spans, tops) && n < |tops| == |lines| && |was| == |mid| && TaggedUpTo(spans, tops, lines, n, was, mid)
    requires now == Tagged(mid, Visits(spans, tops[n]), lines[n])
    ensures TaggedUpTo(spans, tops, lines, n + 1, was, now)
  {
    forall u: nat | u < |now| ensures now[u] == if Under(spans, tops[n], u) then lines[n] else mid[u] {
      VisitsOnce(spans, tops[n], u);
    }
    forall k, u: nat | 0 <= k < n + 1 && u < |now| && Under(spans, tops[k], u) ensures now[u] == lines[k] {
      if Under(spans, tops[n], u) { UnderOneTop(spans, tops, k, n, u); }
    }
    forall u: nat | u < |now| && !UnderAny(spans, tops, n + 1, u) ensures now[u] == was[u] {
      UnderAnyNext(spans, tops, n, u);
    }
  }

  /** Span `u` has thread id `line`. */
  ghost predicate OnLine(tids: seq<int>, u: nat, line: int) {
    u < |tids| && tids[u] == line
  }

  /** Every span three or more down a path is on the line of the top-level span on the path. */
  ghost predicate OnTheirLines(spans: seq<Span>, vs: seq<nat>, lines: seq<int>, tids: seq<int>)
    requires |vs| == |lines|
  {
    forall q, k :: IsPath(spans, q) && |q| >= 3 && 0 <= k < |vs| && vs[k] == q[2] ==> OnLine(tids, Last(q), lines[k])
  }

  /** All other spans keep their thread id. */
  ghost predicate ShallowKept(spans: seq<Span>, was: seq<int>, tids: seq<int>) {
    |was| == |tids| && forall u: nat :: u < |tids| && !Deep(spans, [], u) ==> OnLine(tids, u, was[u])
  }

  lemma TagOfPath(spans: seq<Span>, tops: seq<seq<nat>>, lines: seq<int>, was: seq<int>, tids: seq<int>, q: seq<nat>, k: nat)
    requires IsTops(spans, tops) && |tops| == |lines| && |was| == |tids| == |spans|
    requires TaggedUpTo(spans, tops, lines, |tops|, was, tids)
    requires IsPath(spans, q) && |q| >= 3 && k < |tops| && Last(tops[k]) == q[2]
    ensures OnLine(tids, Last(q), lines[k])
  {
    PathPrefix(spans, q, 3);
    assert Last(q[..3]) == q[2];
    PathsAreUnique(spans, q[..3], tops[k]);
    assert tops[k] <= q;
    assert Under(spans, tops[k], Last(q));
  }

  lemma OthersKept(
      spans: seq<Span>, lines: seq<int>, tops: seq<seq<nat>>, was: seq<int>, tids: seq<int>)
    requires IsTops(spans, tops) && |tops| == |lines| && |was| == |tids| == |spans|
    requires TaggedUpTo(spans, tops, lines, |tops|, was, tids)
    ensures ShallowKept(spans, was, tids)
  {
    forall u: nat | u < |spans| && !Deep(spans, [], u) ensures OnLine(tids, u, was[u]) {
      DeepIsUnderAny(spans, tops, u);
    }
  }

  lemma AllTagged(
      spans: seq<Span>, vs: seq<nat>, lines: seq<int>, tops: seq<seq<nat>>, was: seq<int>, tids: seq<int>)
    requires IsTops(spans, tops) && |tops| == |lines| == |vs| && |was| == |tids| == |spans|
    requires forall k :: 0 <= k < |vs| ==> Last(tops[k]) == vs[k]
    requires TaggedUpTo(spans, tops, lines, |tops|, was, tids)
    ensures OnTheirLines(spans, vs, lines, tids)
  {
    forall q, k | IsPath(spans, q) && |q| >= 3 && 0 <= k < |vs| && vs[k] == q[2] ensures OnLine(tids, Last(q), lines[k]) {
      TagOfPath(spans, tops, lines, was, tids, q, k);
    }
  }

  class SpanTable {
    const spans: seq<Span>
    const ends: array<int>
    const tids: array<int>
    var children: seq<seq<nat>>
    var roots: seq<nat>

    ghost predicate Valid()
      reads this
    {
      && ends.Length == tids.Length == |children| == |spans| && ends != tids
      && (forall v :: 0 <= v < |spans| ==> children[v] == Children(spans, v))
      && roots == Roots(spans)
    }

    /** Builds the child lists and the list of request roots from the ids alone. */
    constructor (spans: seq<Span>, endTimes: seq<int>)
      requires |endTimes| == |spans|
      ensures Valid() && fresh(ends) && fresh(tids) && this.spans == spans && ends[..] == endTimes
    {
      var n := |spans|;
      var kids, tops, _ := BuildSpanTree(spans);
      this.spans, children, roots := spans, kids, tops;
      ends := new int[n](k requires 0 <= k < n => endTimes[k]);
      tids := new int[n](_ => 0);
    }

    /** The conversion pass: every span of the subtree loses 1000 ns at its end, once per visit. */
    method Convert(v: nat, ghost p: seq<nat>)
      requires Valid() && IsPath(spans, p) && Last(p) == v
      modifies ends
      ensures ends[..] == Trimmed(old(ends[..]), Visits(spans, p))
      decreases |spans| - |p|
    {
      PathsAreShort(spans, p);
      ghost var before := ends[..];
      var kids := children[v];
      ends[v] := ends[v] - 1000;
      TrimmedOne(before, v);
      var i := 0;
      while i < |kids|
        invariant 0 <= i <= |kids|
        invariant ends[..] == Trimmed(before, [v] + VisitsOf(spans, p, kids[..i]))
      {
        OneChildMore(spans, p, kids, i);
        TrimmedMore(before, [v] + VisitsOf(spans, p, kids[..i]), Visits(spans, p + [kids[i]]));
        Convert(kids[i], p + [kids[i]]);
        i := i + 1;
      }
      assert kids[..i] == kids;
    }

    /** All spans under one thread of one request. */
    method ConvertThread(t: nat) returns (vs: seq<nat>)
      requires Valid() && t < |spans| && forall v :: v in Children(spans, t) ==> IsTop(spans, v)
      modifies ends
      ensures vs == Children(spans, t) && TrimmedBelow(spans, vs, old(ends[..]), ends[..])
    {
      ghost var before := ends[..];
      var kids := children[t];
      vs := [];
      var i := 0;
      while i < |kids|
        invariant 0 <= i <= |kids| && vs == kids[..i] && TrimmedBelow(spans, vs, before, ends[..])
      {
        ghost var mid := ends[..];
        assert kids[i] in Children(spans, t);
        TopPathIsPath(spans, kids[i]);
        Convert(kids[i], TopPath(spans, kids[i]));
        TrimmedBelowOne(spans, kids[i], mid, ends[..]);
        TrimmedBelowMore(spans, vs, [kids[i]], before, mid, ends[..]);
        vs := vs + [kids[i]];
        i := i + 1;
      }
    }

    /** All threads of one request. */
    method ConvertRequest(r: nat) returns (vs: seq<nat>)
      requires Valid() && r < |spans| && spans[r].isRequest
      modifies ends
      ensures var threads := Children(spans, r); vs == BelowThreads(spans, threads, |threads|)
      ensures TrimmedBelow(spans, vs, old(ends[..]), ends[..])
    {
      ghost var before := ends[..];
      var threads := children[r];
      vs := [];
      var i := 0;
      while i < |threads|
        invariant 0 <= i <= |threads| && vs == BelowThreads(spans, threads, i)
        invariant TrimmedBelow(spans, vs, before, ends[..])
      {
        ghost var mid := ends[..];
        assert threads[i] in Children(spans, r);
        forall v | v in Children(spans, threads[i]) ensures IsTop(spans, v) {
          BelowThreadIsTop(spans, r, threads[i], v);
        }
        var more := ConvertThread(threads[i]);
        TrimmedBelowMore(spans, vs, more, before, mid, ends[..]);
        vs := vs + more;
        i := i + 1;
      }
    }

    /** One request more. */
    method ConvertNext(i: nat, vs: seq<nat>, ghost before: seq<int>) returns (now: seq<nat>)
      requires Valid() && i < |roots| && vs == BelowRoots(spans, i) && TrimmedBelow(spans, vs, before, ends[..])
      modifies ends
      ensures now == BelowRoots(spans, i + 1) && TrimmedBelow(spans, now, before, ends[..])
    {
      ghost var mid := ends[..];
      assert roots[i] in Roots(spans);
      var more := ConvertRequest(roots[i]);
      TrimmedBelowMore(spans, vs, more, before, mid, ends[..]);
      now := vs + more;
    }

    /** All requests. */
    method ConvertRequests() returns (vs: seq<nat>)
      requires Valid()
      modifies ends
      ensures vs == BelowRoots(spans, |Roots(spans)|) && TrimmedBelow(spans, vs, old(ends[..]), ends[..])
    {
      ghost var before := ends[..];
      TrimmedBelowNone(spans, before);
      vs := [];
      var i := 0;
      while i < |roots|
        invariant 0 <= i <= |roots| && vs == BelowRoots(spans, i) && TrimmedBelow(spans, vs, before, ends[..])
      {
        vs := ConvertNext(i, vs, before);
        i := i + 1;
      }
    }

    /**
     The conversion of the whole trace trims exactly the spans two levels below a request, each once, and collects the
     top-level spans.
     */
    method ConvertAll() returns (vs: seq<nat>)
      requires Valid()
      modifies ends
      ensures forall u: nat :: u < |spans| ==> ends[u] == old(ends[u]) - if Deep(spans, [], u) then 1000 else 0
      ensures IsTopList(spans, vs)
    {
      ghost var before := ends[..];
      vs := ConvertRequests();
      WalkListsTops(spans);
      ghost var after := ends[..];
      TrimmedOnce(spans, vs, before, after);
      assert forall u: nat :: u < |spans| ==> ends[u] == after[u] && old(ends[u]) == before[u];
    }

    /** The tid pass: the whole subtree is put on one line. */
    method SetTid(v: nat, line: int, ghost p: seq<nat>)
      requires Valid() && IsPath(spans, p) && Last(p) == v
      modifies tids
      ensures tids[..] == Tagged(old(tids[..]), Visits(spans, p), line)
      decreases |spans| - |p|
    {
      PathsAreShort(spans, p);
      ghost var before := tids[..];
      var kids := children[v];
      tids[v] := line;
      TaggedOne(before, v, line);
      var i := 0;
      while i < |kids|
        invariant 0 <= i <= |kids|
        invariant tids[..] == Tagged(before, [v] + VisitsOf(spans, p, kids[..i]), line)
      {
        OneChildMore(spans, p, kids, i);
        TaggedMore(before, [v] + VisitsOf(spans, p, kids[..i]), Visits(spans, p + [kids[i]]), line);
        SetTid(kids[i], line, p + [kids[i]]);
        i := i + 1;
      }
      assert kids[..i] == kids;
    }

    /** The gathering pass: the spans of the subtree in order. */
    method Gather(v: nat, ghost p: seq<nat>) returns (elems: seq<nat>)
      requires Valid() && IsPath(spans, p) && Last(p) == v
      ensures elems == Visits(spans, p)
      decreases |spans| - |p|
    {
      PathsAreShort(spans, p);
      var kids := children[v];
      elems := [v];
      var i := 0;
      while i < |kids|
        invariant 0 <= i <= |kids| && elems == [v] + VisitsOf(spans, p, kids[..i])
      {
        OneChildMore(spans, p, kids, i);
        var more := Gather(kids[i], p + [kids[i]]);
        elems := elems + more;
        i := i + 1;
      }
      assert kids[..i] == kids;
    }

    /**
     The tid pass over all top-level spans, in whatever order the layout takes them: every deep span is put on the
     line of the top-level span on its path, and all other spans keep their thread id.
     */
    method SetAllTids(vs: seq<nat>, lines: seq<int>)
      requires Valid() && IsTopList(spans, vs) && |vs| == |lines|
      modifies tids
      ensures OnTheirLines(spans, vs, lines, tids[..]) && ShallowKept(spans, old(tids[..]), tids[..])
    {
      ghost var tops := TopPaths(spans, vs);
      ghost var was := tids[..];
      var i := 0;
      while i < |vs|
        invariant 0 <= i <= |vs| && TaggedUpTo(spans, tops, lines, i, was, tids[..])
      {
        ghost var mid := tids[..];
        SetTid(vs[i], lines[i], tops[i]);
        TaggedNext(spans, tops, lines, i, was, mid, tids[..]);
        i := i + 1;
      }
      AllTagged(spans, vs, lines, tops, was, tids[..]);
      OthersKept(spans, lines, tops, was, tids[..]);
    }

    /** Gathering over all top-level spans lists every deep span exactly once, and nothing else. */
    method GatherAll(vs: seq<nat>) returns (elems: seq<nat>)
      requires Valid() && IsTopList(spans, vs)
      ensures forall u: nat :: Occurrences(elems, u) == One(Deep(spans, [], u))
    {
      ghost var tops := TopPaths(spans, vs);
      elems := [];
      var i := 0;
      while i < |vs|
        invariant 0 <= i <= |vs|
        invariant forall u: nat :: Occurrences(elems, u) == One(UnderAny(spans, tops, i, u))
      {
        var more := Gather(vs[i], tops[i]);
        forall u: nat ensures Occurrences(elems + more, u) == One(UnderAny(spans, tops, i + 1, u)) {
          OccurrencesConcat(elems, more, u);
          VisitsOnce(spans, tops[i], u);
          UnderAnyNext(spans, tops, i, u);
        }
        elems := elems + more;
        i := i + 1;
      }
      forall u: nat ensures Occurrences(elems, u) == One(Deep(spans, [], u)) { DeepIsUnderAny(spans, tops, u); }
    }
  }
}
