/**
 The span tree built from untrusted parent ids, and the recursive passes over it. A span is named by
 its position in the input list; ids may be duplicated, missing, self-referring or cyclic.
 */
module SpanForest {
  import opened Arithmetic
  import opened Wrappers
  import opened Sums

  datatype Span = Span(id: string, parent: string, isRequest: bool, links: seq<string>)

  // ---------- the tree ----------

  /** The position `span_id_map` holds for an id after the first `n` spans: the last one with that id. */
  function LastWithId(spans: seq<Span>, id: string, n: nat): (r: Option<nat>)
    requires n <= |spans|
    ensures r.Some? ==> r.value < n && spans[r.value].id == id
    ensures forall i :: 0 <= i < n && spans[i].id == id ==> r.Some? && i <= r.value
  {
    if n == 0 then None
    else if spans[n - 1].id == id then Some(n - 1)
    else LastWithId(spans, id, n - 1)
  }

  /** The span whose child list span `i` is appended to; request spans are appended to none. */
  function Parent(spans: seq<Span>, i: nat): (r: Option<nat>)
    requires i < |spans|
    ensures r.Some? ==> r.value < |spans|
  {
    if spans[i].isRequest then None else LastWithId(spans, spans[i].parent, |spans|)
  }

  /** The spans the first `n` of some link ids lead to; an id no span has is dropped. */
  function LinkTargets(spans: seq<Span>, ids: seq<string>, n: nat): (r: seq<nat>)
    requires n <= |ids|
    ensures |r| <= n
    ensures forall t: nat :: t in r <==> exists k :: 0 <= k < n && LastWithId(spans, ids[k], |spans|) == Some(t)
  {
    if n == 0 then []
    else
      var t := LastWithId(spans, ids[n - 1], |spans|);
      LinkTargets(spans, ids, n - 1) + if t.Some? then [t.value] else []
  }

  /** The child list of `v` after the first `n` spans have been looked at. */
  function ChildrenUpTo(spans: seq<Span>, v: nat, n: nat): (r: seq<nat>)
    requires n <= |spans|
  {
    if n == 0 then []
    else ChildrenUpTo(spans, v, n - 1) + if Parent(spans, n - 1) == Some(v) then [n - 1] else []
  }

  function Children(spans: seq<Span>, v: nat): (r: seq<nat>)
    ensures |r| <= |spans|
    ensures forall c: nat :: c in r <==> c < |spans| && Parent(spans, c) == Some(v)
    ensures forall i, j :: 0 <= i < j < |r| ==> r[i] < r[j]
  {
    ChildrenAreThose(spans, v, |spans|);
    ChildrenUpTo(spans, v, |spans|)
  }

  /** `r` lists the children of `v` among the first `n` spans, in input order. */
  ghost predicate ListsChildren(spans: seq<Span>, v: nat, n: nat, r: seq<nat>)
    requires n <= |spans|
  {
    && |r| <= n && (forall i :: 0 <= i < |r| ==> r[i] < n)
    && (forall c: nat :: c in r <==> c < n && Parent(spans, c) == Some(v))
    && (forall i, j :: 0 <= i < j < |r| ==> r[i] < r[j])
  }

  lemma ListsOneMore(spans: seq<Span>, v: nat, n: nat, r: seq<nat>)
    requires n < |spans| && ListsChildren(spans, v, n, r)
    ensures ListsChildren(spans, v, n + 1, r + if Parent(spans, n) == Some(v) then [n] else [])
  {
    var now := r + if Parent(spans, n) == Some(v) then [n] else [];
    forall c: nat ensures c in now <==> c < n + 1 && Parent(spans, c) == Some(v) {
      assert c in now <==> c in r || (Parent(spans, n) == Some(v) && c == n);
    }
  }

  /** Each span is in the child list of its parent and nowhere else, in input order. */
  lemma {:induction false} ChildrenAreThose(spans: seq<Span>, v: nat, n: nat)
    requires n <= |spans|
    ensures ListsChildren(spans, v, n, ChildrenUpTo(spans, v, n))
  {
    if n > 0 {
      ChildrenAreThose(spans, v, n - 1);
      ListsOneMore(spans, v, n - 1, ChildrenUpTo(spans, v, n - 1));
    }
  }

  function RootsUpTo(spans: seq<Span>, n: nat): (r: seq<nat>)
    requires n <= |spans|
  {
    if n == 0 then []
    else RootsUpTo(spans, n - 1) + if spans[n - 1].isRequest then [n - 1] else []
  }

  function Roots(spans: seq<Span>): (r: seq<nat>)
    ensures forall c: nat :: c in r <==> c < |spans| && spans[c].isRequest
    ensures forall i, j :: 0 <= i < j < |r| ==> r[i] < r[j]
  {
    RootsAreThose(spans, |spans|);
    RootsUpTo(spans, |spans|)
  }

  lemma {:induction false} RootsAreThose(spans: seq<Span>, n: nat)
    requires n <= |spans|
    ensures var r := RootsUpTo(spans, n);
      && (forall i :: 0 <= i < |r| ==> r[i] < n)
      && (forall c: nat :: c in r <==> c < n && spans[c].isRequest)
      && (forall i, j :: 0 <= i < j < |r| ==> r[i] < r[j])
  {
    if n > 0 {
      RootsAreThose(spans, n - 1);
    }
  }

  // ---------- paths from the request roots ----------

  /** A walk down child lists that starts at a request span. */
  ghost predicate IsPath(spans: seq<Span>, p: seq<nat>) {
    && p != [] && (forall i :: 0 <= i < |p| ==> p[i] < |spans|)
    && spans[p[0]].isRequest
    && forall i :: 1 <= i < |p| ==> Parent(spans, p[i]) == Some(p[i - 1])
  }

  ghost function Last(p: seq<nat>): nat
    requires p != []
  {
    p[|p| - 1]
  }

  lemma PathExtends(spans: seq<Span>, p: seq<nat>, c: nat)
    requires IsPath(spans, p) && c in Children(spans, Last(p))
    ensures IsPath(spans, p + [c])
  {
    var q := p + [c];
    forall i | 1 <= i < |q| ensures Parent(spans, q[i]) == Some(q[i - 1]) {
      if i < |p| { assert q[i] == p[i] && q[i - 1] == p[i - 1]; }
    }
  }

  lemma PathPrefix(spans: seq<Span>, p: seq<nat>, k: nat)
    requires IsPath(spans, p) && 1 <= k <= |p|
    ensures IsPath(spans, p[..k])
  {
  }

  lemma OnlyRootsStartPaths(spans: seq<Span>, p: seq<nat>)
    requires IsPath(spans, p)
    ensures |p| == 1 <==> Parent(spans, Last(p)) == None
  {
    if |p| > 1 {
      assert Parent(spans, p[|p| - 1]) == Some(p[|p| - 2]);
    }
  }

  /** Whatever the parent ids, a span has at most one path from the roots: the reachable part is a forest. */
  lemma {:induction false} PathsAreUnique(spans: seq<Span>, p: seq<nat>, q: seq<nat>)
    requires IsPath(spans, p) && IsPath(spans, q) && Last(p) == Last(q)
    ensures p == q
  {
    OnlyRootsStartPaths(spans, p);
    OnlyRootsStartPaths(spans, q);
    if |p| > 1 {
      PathPrefix(spans, p, |p| - 1);
      PathPrefix(spans, q, |q| - 1);
      assert Parent(spans, Last(p)) == Some(Last(p[..|p| - 1])) == Some(Last(q[..|q| - 1]));
      PathsAreUnique(spans, p[..|p| - 1], q[..|q| - 1]);
      assert p == p[..|p| - 1] + [Last(p)] && q == q[..|q| - 1] + [Last(q)];
    }
  }

  /** No path visits a span twice, so a path is no longer than the list of spans: the passes terminate. */
  lemma PathsAreShort(spans: seq<Span>, p: seq<nat>)
    requires IsPath(spans, p)
    ensures forall i, j :: 0 <= i < j < |p| ==> p[i] != p[j]
    ensures |p| <= |spans|
  {
    forall i, j | 0 <= i < j < |p| ensures p[i] != p[j] {
      PathPrefix(spans, p, i + 1);
      PathPrefix(spans, p, j + 1);
      if p[i] == p[j] {
        PathsAreUnique(spans, p[..i + 1], p[..j + 1]);
      }
    }
    DistinctBelow(p, |spans|);
  }

  // ---------- what a recursive pass visits ----------

  /** The spans a recursive pass started at the end of `p` visits, in order. */
  ghost function Visits(spans: seq<Span>, p: seq<nat>): seq<nat>
    requires IsPath(spans, p)
    decreases |spans| - |p|, |spans| + 1
  {
    PathsAreShort(spans, p);
    [Last(p)] + VisitsOf(spans, p, Children(spans, Last(p)))
  }

  /** The same, for the subtrees of some children of the end of `p`. */
  ghost function VisitsOf(spans: seq<Span>, p: seq<nat>, kids: seq<nat>): seq<nat>
    requires IsPath(spans, p) && |kids| <= |spans|
    requires forall c :: c in kids ==> c in Children(spans, Last(p))
    decreases |spans| - |p|, |kids|
  {
    if kids == [] then []
    else
      var front, c := kids[..|kids| - 1], kids[|kids| - 1];
      PathExtends(spans, p, c);
      PathsAreShort(spans, p + [c]);
      VisitsOf(spans, p, front) + Visits(spans, p + [c])
  }

  /** Span `u` lies in the subtree at the end of `p`. */
  ghost predicate Under(spans: seq<Span>, p: seq<nat>, u: nat) {
    exists q :: IsPath(spans, q) && p <= q && Last(q) == u
  }

  ghost predicate UnderOne(spans: seq<Span>, p: seq<nat>, kids: seq<nat>, u: nat) {
    exists c :: c in kids && Under(spans, p + [c], u)
  }

  /** Every span of the subtree is visited exactly once, and nothing else is. */
  lemma {:induction false} VisitsOnce(spans: seq<Span>, p: seq<nat>, u: nat)
    requires IsPath(spans, p)
    ensures Occurrences(Visits(spans, p), u) == One(Under(spans, p, u))
    decreases |spans| - |p|, |spans| + 1
  {
    var kids := Children(spans, Last(p));
    PathsAreShort(spans, p);
    VisitsOfOnce(spans, p, kids, u);
    OccurrencesConcat([Last(p)], VisitsOf(spans, p, kids), u);
    assert Occurrences([Last(p)], u) == One(Last(p) == u) by { OccurrencesPush([], Last(p), u); assert [] + [Last(p)] == [Last(p)]; }
    UnderSplits(spans, p, u);
  }

  /** A span under `p` is the end of `p` or under exactly one way on, not both. */
  lemma UnderSplits(spans: seq<Span>, p: seq<nat>, u: nat)
    requires IsPath(spans, p)
    ensures Under(spans, p, u) <==> Last(p) == u || UnderOne(spans, p, Children(spans, Last(p)), u)
    ensures !(Last(p) == u && UnderOne(spans, p, Children(spans, Last(p)), u))
  {
    var kids := Children(spans, Last(p));
    if Under(spans, p, u) {
      var q :| IsPath(spans, q) && p <= q && Last(q) == u;
      if |q| > |p| {
        var c := q[|p|];
        assert Parent(spans, c) == Some(q[|p| - 1]) && q[|p| - 1] == Last(p);
        assert c in kids && p + [c] <= q;
        assert Under(spans, p + [c], u);
      } else {
        assert q == p;
      }
    }
    if Last(p) == u {
      assert p <= p;
      assert Under(spans, p, u);
    }
    if UnderOne(spans, p, kids, u) {
      var c :| c in kids && Under(spans, p + [c], u);
      var q :| IsPath(spans, q) && p + [c] <= q && Last(q) == u;
      assert p <= q;
      if Last(p) == u { PathsAreUnique(spans, p, q); }
    }
  }

  /** No span is under two different children. */
  lemma UnderOneOnly(spans: seq<Span>, p: seq<nat>, c: nat, d: nat, u: nat)
    requires Under(spans, p + [c], u) && Under(spans, p + [d], u)
    ensures c == d
  {
    var q :| IsPath(spans, q) && p + [c] <= q && Last(q) == u;
    var r :| IsPath(spans, r) && p + [d] <= r && Last(r) == u;
    PathsAreUnique(spans, q, r);
    assert (p + [c])[|p|] == q[|p|] && (p + [d])[|p|] == r[|p|];
  }

  lemma {:induction false} VisitsOfOnce(spans: seq<Span>, p: seq<nat>, kids: seq<nat>, u: nat)
    requires IsPath(spans, p) && |kids| <= |spans|
    requires forall c :: c in kids ==> c in Children(spans, Last(p))
    requires forall i, j :: 0 <= i < j < |kids| ==> kids[i] != kids[j]
    ensures Occurrences(VisitsOf(spans, p, kids), u) == One(UnderOne(spans, p, kids, u))
    decreases |spans| - |p|, |kids|
  {
    if kids != [] {
      var front, c := kids[..|kids| - 1], kids[|kids| - 1];
      PathExtends(spans, p, c);
      PathsAreShort(spans, p + [c]);
      VisitsOfOnce(spans, p, front, u);
      VisitsOnce(spans, p + [c], u);
      OccurrencesConcat(VisitsOf(spans, p, front), Visits(spans, p + [c]), u);
      if UnderOne(spans, p, front, u) && Under(spans, p + [c], u) {
        var d :| d in front && Under(spans, p + [d], u);
        UnderOneOnly(spans, p, c, d, u);
      }
      assert UnderOne(spans, p, kids, u) <==> UnderOne(spans, p, front, u) || Under(spans, p + [c], u) by {
        assert kids == front + [c];
      }
    }
  }

  // ---------- the whole trace ----------

  /** Span `u` lies at least two levels below a request, at or after `start`. */
  ghost predicate Deep(spans: seq<Span>, start: seq<nat>, u: nat) {
    exists q :: IsPath(spans, q) && start <= q && |q| >= 3 && Last(q) == u
  }

  /** The paths to the spans directly below a thread span, in any order. */
  ghost predicate IsTops(spans: seq<Span>, tops: seq<seq<nat>>) {
    && (forall k :: 0 <= k < |tops| ==> IsPath(spans, tops[k]) && |tops[k]| == 3)
    && (forall i, j :: 0 <= i < j < |tops| ==> tops[i] != tops[j])
    && (forall q :: IsPath(spans, q) && |q| == 3 ==> q in tops)
  }

  /** Span `u` lies at or below one of the first `n` of them. */
  ghost predicate UnderAny(spans: seq<Span>, tops: seq<seq<nat>>, n: nat, u: nat)
    requires n <= |tops|
  {
    exists k :: 0 <= k < n && Under(spans, tops[k], u)
  }

  lemma UnderOneTop(spans: seq<Span>, tops: seq<seq<nat>>, i: nat, j: nat, u: nat)
    requires IsTops(spans, tops) && i < |tops| && j < |tops| && Under(spans, tops[i], u) && Under(spans, tops[j], u)
    ensures i == j
  {
    var q :| IsPath(spans, q) && tops[i] <= q && Last(q) == u;
    var r :| IsPath(spans, r) && tops[j] <= r && Last(r) == u;
    PathsAreUnique(spans, q, r);
    assert tops[i] == q[..3] && tops[j] == r[..3];
  }

  lemma UnderAnyNext(spans: seq<Span>, tops: seq<seq<nat>>, n: nat, u: nat)
    requires IsTops(spans, tops) && n < |tops|
    ensures One(UnderAny(spans, tops, n + 1, u)) == One(UnderAny(spans, tops, n, u)) + One(Under(spans, tops[n], u))
  {
    if UnderAny(spans, tops, n, u) && Under(spans, tops[n], u) {
      var k :| 0 <= k < n && Under(spans, tops[k], u);
      UnderOneTop(spans, tops, k, n, u);
    }
  }

  lemma DeepIsUnderAny(spans: seq<Span>, tops: seq<seq<nat>>, u: nat)
    requires IsTops(spans, tops)
    ensures Deep(spans, [], u) <==> UnderAny(spans, tops, |tops|, u)
  {
    if Deep(spans, [], u) {
      var q :| IsPath(spans, q) && [] <= q && |q| >= 3 && Last(q) == u;
      PathPrefix(spans, q, 3);
      assert q[..3] in tops && q[..3] <= q;
    }
    if k :| 0 <= k < |tops| && Under(spans, tops[k], u) {
      var q :| IsPath(spans, q) && tops[k] <= q && Last(q) == u;
      assert [] <= q;
    }
  }
}
