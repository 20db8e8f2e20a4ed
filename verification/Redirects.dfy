/**
 Line-retrieval data: redirect chains, ring detection and value resolution with in-place updates, and the
 evaluation script that queries a truncated copy of the lines.
 */
module Redirects {
  import opened Arithmetic
  import opened Wrappers

  /** For each line, the line it redirects to, if any. */
  type Table = seq<Option<nat>>

  ghost predicate InRange(t: Table) {
    forall i :: 0 <= i < |t| && t[i].Some? ==> t[i].value < |t|
  }

  // ---------- chains ----------

  /** The line reached from `i` after `k` redirects; a plain line stays where it is. */
  ghost function At(t: Table, i: nat, k: nat): (r: nat)
    requires InRange(t) && i < |t|
    ensures r < |t|
  {
    if k == 0 then i
    else
      var c := At(t, i, k - 1);
      if t[c].Some? then t[c].value else c
  }

  /** The chain from `i` never reaches a plain line. */
  ghost predicate Ring(t: Table, i: nat)
    requires InRange(t) && i < |t|
  {
    forall k: nat :: t[At(t, i, k)].Some?
  }

  /** Exactly `k` redirects lead from `i` to a plain line. */
  ghost predicate StopsAt(t: Table, i: nat, k: nat)
    requires InRange(t) && i < |t|
  {
    t[At(t, i, k)].None? && forall j: nat :: j < k ==> t[At(t, i, j)].Some?
  }

  /** The lines visited after `i`, up to `k` redirects. */
  ghost function Chain(t: Table, i: nat, k: nat): (r: seq<nat>)
    requires InRange(t) && i < |t|
    ensures |r| == k && forall j :: 0 <= j < k ==> r[j] == At(t, i, j + 1)
  {
    if k == 0 then [] else Chain(t, i, k - 1) + [At(t, i, k)]
  }

  lemma {:induction false} Shift(t: Table, i: nat, a: nat, b: nat, m: nat)
    requires InRange(t) && i < |t| && At(t, i, a) == At(t, i, b)
    ensures At(t, i, a + m) == At(t, i, b + m)
  {
    if m > 0 { Shift(t, i, a, b, m - 1); }
  }

  /** Coming back to a visited line means never reaching a plain one. */
  lemma {:induction false} RepeatMeansRing(t: Table, i: nat, a: nat, b: nat, k: nat)
    requires InRange(t) && i < |t| && a < b && At(t, i, a) == At(t, i, b)
    requires forall j: nat :: j < b ==> t[At(t, i, j)].Some?
    ensures t[At(t, i, k)].Some?
    decreases k
  {
    if k >= b {
      Shift(t, i, a, b, k - b);
      RepeatMeansRing(t, i, a, b, a + (k - b));
    }
  }

  /** A chain that stops visits no line twice. */
  lemma StoppingChainIsSimple(t: Table, i: nat, k: nat, a: nat, b: nat)
    requires InRange(t) && i < |t| && StopsAt(t, i, k) && a < b <= k
    ensures At(t, i, a) != At(t, i, b)
  {
    if At(t, i, a) == At(t, i, b) {
      forall j: nat | j < b ensures t[At(t, i, j)].Some? { assert j < k; }
      RepeatMeansRing(t, i, a, b, k);
    }
  }

  // ---------- chasing one line ----------

  /** The first `k` lines of the walk from `i`. */
  ghost function Trail(t: Table, i: nat, k: nat): (r: seq<nat>)
    requires InRange(t) && i < |t|
    ensures |r| == k && forall j :: 0 <= j < k ==> r[j] == At(t, i, j)
  {
    if k == 0 then [] else Trail(t, i, k - 1) + [At(t, i, k - 1)]
  }

  ghost predicate Visited(t: Table, i: nat, k: nat, visited: set<nat>)
    requires InRange(t) && i < |t|
  {
    forall c :: c in visited <==> c in Trail(t, i, k)
  }

  lemma VisitedGrows(t: Table, i: nat, k: nat, visited: set<nat>)
    requires InRange(t) && i < |t| && Visited(t, i, k, visited)
    ensures Visited(t, i, k + 1, visited + {At(t, i, k)})
    ensures forall c :: c in visited + {At(t, i, k)} ==> c < |t|
  {
    assert Trail(t, i, k + 1) == Trail(t, i, k) + [At(t, i, k)];
  }

  /** Follows the redirects of line `i`: the link list, or `None` when the chain bites its own tail. */
  method Chase(t: Table, i: nat) returns (link: Option<seq<nat>>, cur: nat)
    requires InRange(t) && i < |t|
    ensures cur < |t|
    ensures link.None? <==> Ring(t, i)
    ensures link.Some? ==>
              && StopsAt(t, i, |link.value|) && link.value == Chain(t, i, |link.value|)
              && cur == At(t, i, |link.value|)
  {
    var tmp: seq<nat> := [];
    cur := i;
    var visited: set<nat> := {};
    while t[cur].Some?
      invariant cur == At(t, i, |tmp|) && tmp == Chain(t, i, |tmp|)
      invariant forall j: nat :: j < |tmp| ==> t[At(t, i, j)].Some?
      invariant Visited(t, i, |tmp|, visited) && cur !in visited
      decreases |t| - |visited|
    {
      VisitedGrows(t, i, |tmp|, visited);
      BelowSize(visited + {cur}, |t|);
      visited := visited + {cur};
      tmp := tmp + [t[cur].value];
      cur := t[cur].value;
      assert cur == At(t, i, |tmp|);
      if cur in visited {
        RingFound(t, i, |tmp|, visited);
        return None, cur;
      }
    }
    link := Some(tmp);
  }

  lemma RingFound(t: Table, i: nat, b: nat, visited: set<nat>)
    requires InRange(t) && i < |t| && Visited(t, i, b, visited) && At(t, i, b) in visited
    requires forall j: nat :: j < b ==> t[At(t, i, j)].Some?
    ensures Ring(t, i)
  {
    var a :| 0 <= a < b && Trail(t, i, b)[a] == At(t, i, b);
    forall k: nat ensures t[At(t, i, k)].Some? { RepeatMeansRing(t, i, a, b, k); }
  }

  // ---------- all lines ----------

  ghost predicate LineResolved(t: Table, original: seq<string>, i: nat, link: Option<seq<nat>>, value: string, ring: bool)
    requires InRange(t) && i < |t| == |original|
  {
    && (ring <==> Ring(t, i)) && (link.None? <==> ring)
    && (link.Some? ==>
          && StopsAt(t, i, |link.value|) && link.value == Chain(t, i, |link.value|)
          && value == original[At(t, i, |link.value|)])
  }

  /** A link list never repeats a line and never comes back to its own. */
  lemma LinksAreSimple(t: Table, original: seq<string>, i: nat, link: seq<nat>, value: string, a: nat, b: nat)
    requires InRange(t) && i < |t| == |original| && LineResolved(t, original, i, Some(link), value, false)
    requires a < b <= |link|
    ensures ([i] + link)[a] != ([i] + link)[b]
  {
    StoppingChainIsSimple(t, i, |link|, a, b);
    assert ([i] + link)[b] == At(t, i, b);
    assert ([i] + link)[a] == At(t, i, a) by { assert At(t, i, 0) == i; }
  }

  lemma PlainLine(t: Table, original: seq<string>, i: nat)
    requires InRange(t) && i < |t| == |original| && t[i].None?
    ensures LineResolved(t, original, i, Some([]), original[i], false)
  {
    assert At(t, i, 0) == i;
  }

  /**
   Resolves every line, overwriting values in place: each line that reaches a plain line ends with that line's
   original value and its exact chain, and the others are exactly the lines reported as rings.
   */
  method ResolveAll(t: Table, values: array<string>, links: array<Option<seq<nat>>>) returns (containsRing: set<nat>)
    requires InRange(t) && values.Length == links.Length == |t|
    modifies values, links
    ensures forall i: nat :: i < |t| ==> LineResolved(t, old(values[..]), i, links[i], values[i], i in containsRing)
    ensures forall i :: 0 <= i < |t| && t[i].None? ==> values[i] == old(values[i])
  {
    ghost var original := values[..];
    containsRing := {};
    var i := 0;
    while i < |t|
      invariant 0 <= i <= |t|
      invariant forall j: nat :: i <= j < |t| ==> values[j] == original[j]
      invariant forall j: nat :: j < |t| && t[j].None? ==> values[j] == original[j]
      invariant forall c :: c in containsRing ==> c < i
      invariant forall j: nat :: j < i ==> LineResolved(t, original, j, links[j], values[j], j in containsRing)
    {
      if t[i].None? {
        links[i] := Some([]);
        PlainLine(t, original, i);
      } else {
        var link, cur := Chase(t, i);
        if link.None? {
          containsRing := containsRing + {i};
        }
        values[i] := values[cur];
        links[i] := link;
        assert LineResolved(t, original, i, links[i], values[i], i in containsRing);
      }
      i := i + 1;
    }
  }
}
