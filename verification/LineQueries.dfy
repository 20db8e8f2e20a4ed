/** The evaluation script: which queries it accepts for a truncated body, and why their labels are right. */
module LineQueries {
  import opened Arithmetic
  import opened Wrappers
  import opened Redirects

  /** A line of text: its own value, or "the same as line ...". */
  datatype Line = Plain(value: string) | Same(target: nat)

  function LinesOf(t: Table, original: seq<string>): (r: seq<Line>)
    requires |original| == |t|
    ensures |r| == |t|
  {
    seq(|t|, i requires 0 <= i < |t| => if t[i].Some? then Same(t[i].value) else Plain(original[i]))
  }

  /** What a reader who sees only `body` makes of line `q` with at most `k` redirects. */
  ghost function Follow(body: seq<Line>, q: nat, k: nat): Option<string>
    decreases k
  {
    if q >= |body| then None
    else match body[q]
      case Plain(v) => Some(v)
      case Same(x) => if k == 0 then None else Follow(body, x, k - 1)
  }

  /** `lines[: src_index + 1]`; a negative end counts from the back. */
  function Body(lines: seq<Line>, src: int): seq<Line> {
    var end := if src + 1 < 0 then Max(0, src + 1 + |lines|) else src + 1;
    if end <= |lines| then lines[..end] else lines
  }

  // ---------- grouping and filtering ----------

  /** The first `n` lines that are no rings and resolve in `hops - 1` redirects. */
  function HopGroup(links: seq<Option<seq<nat>>>, hops: nat, n: nat): (r: seq<nat>)
    requires n <= |links|
    ensures forall k :: 0 <= k < |r| ==> r[k] < n && links[r[k]].Some?
    ensures forall q: nat :: q in r <==> q < n && links[q].Some? && |links[q].value| + 1 == hops
  {
    if n == 0 then []
    else if links[n - 1].Some? && |links[n - 1].value| + 1 == hops then HopGroup(links, hops, n - 1) + [n - 1]
    else HopGroup(links, hops, n - 1)
  }

  predicate Accepts(link: seq<nat>, src: int, q: nat) {
    (forall l :: l in link ==> l <= src) && q < src
  }

  function Filter(queries: seq<nat>, links: seq<Option<seq<nat>>>, src: int): (r: seq<nat>)
    requires forall k :: 0 <= k < |queries| ==> queries[k] < |links| && links[queries[k]].Some?
    ensures forall q: nat :: q in r <==> q in queries && Accepts(links[q].value, src, q)
  {
    if queries == [] then []
    else
      var front, q := queries[..|queries| - 1], queries[|queries| - 1];
      if Accepts(links[q].value, src, q) then Filter(front, links, src) + [q] else Filter(front, links, src)
  }

  /** The query at a fraction of the list; an empty list is an index error. */
  function Pick(queries: seq<nat>, fraction: real): (r: Option<nat>)
    requires fraction >= 0.0
    ensures r.None? <==> queries == []
    ensures r.Some? ==> r.value in queries
  {
    if queries == [] then None
    else
      var k := ((|queries| as real) * fraction).Floor;
      Some(queries[if k < |queries| - 1 then k else |queries| - 1])
  }

  // ---------- why the labels are right ----------

  /** Every line of the walk from `i`, from the `j`-th on, is below `cut`. */
  ghost predicate StaysBelow(t: Table, i: nat, j: nat, k: nat, cut: nat)
    requires InRange(t) && i < |t|
  {
    forall m: nat :: j <= m <= k ==> At(t, i, m) < cut
  }

  lemma {:induction false} FollowWalk(t: Table, original: seq<string>, src: nat, i: nat, k: nat, j: nat)
    requires InRange(t) && i < |t| == |original| && StopsAt(t, i, k) && j <= k
    ensures Follow(Body(LinesOf(t, original), src), At(t, i, j), k - j) ==
              if StaysBelow(t, i, j, k, src + 1) then Some(original[At(t, i, k)]) else None
    decreases k - j
  {
    var body, c := Body(LinesOf(t, original), src), At(t, i, j);
    if c < |body| && j < k {
      FollowWalk(t, original, src, i, k, j + 1);
      assert t[c].Some? && At(t, i, j + 1) == t[c].value;
      assert StaysBelow(t, i, j, k, src + 1) <==> StaysBelow(t, i, j + 1, k, src + 1);
    }
  }

  /**
   A resolved line is accepted exactly when the source index is no negative one, the line is not the last one of the
   body and a reader of the truncated body alone finds its label by following redirects.
   */
  lemma AcceptedIff(t: Table, original: seq<string>, src: int, q: nat, link: seq<nat>, answer: string)
    requires InRange(t) && q < |t| == |original| && LineResolved(t, original, q, Some(link), answer, false)
    ensures Accepts(link, src, q) <==>
              src >= 0 && q != src && Follow(Body(LinesOf(t, original), src), q, |link|) == Some(answer)
    ensures Accepts(link, src, q) ==> src >= 0 && StaysBelow(t, q, 0, |link|, src + 1)
  {
    if src < 0 { return; }
    FollowWalk(t, original, src, q, |link|, 0);
    assert At(t, q, 0) == q;
    if Accepts(link, src, q) {
      forall m: nat | 0 <= m <= |link| ensures At(t, q, m) < src + 1 {
        if m > 0 { assert link[m - 1] == At(t, q, m) && link[m - 1] in link; }
      }
    }
    if StaysBelow(t, q, 0, |link|, src + 1) {
      forall l | l in link ensures l <= src {
        var m :| 0 <= m < |link| && link[m] == l;
        assert At(t, q, m + 1) == l;
      }
    }
  }

  /** The four parts of the prompt put the body back together. */
  lemma PartsAreBody<T>(body: seq<T>)
    ensures var n := |body| / 4;
      body[..n] + body[n..2 * n] + body[2 * n..3 * n] + body[3 * n..] == body
  {
    var n := |body| / 4;
    assert body[..n] + body[n..2 * n] == body[..2 * n];
    assert body[..2 * n] + body[2 * n..3 * n] == body[..3 * n];
  }

  // ---------- building the arguments ----------

  datatype Argument = Argument(src: int, dst: nat, parts: seq<seq<Line>>, answer: string)

  ghost predicate WellPosed(a: Argument, t: Table, original: seq<string>) {
    && InRange(t) && |original| == |t| && a.dst < |t| && |a.parts| == 4
    && var body := a.parts[0] + a.parts[1] + a.parts[2] + a.parts[3];
       && body == Body(LinesOf(t, original), a.src) && a.dst < a.src
       && exists k: nat :: Follow(body, a.dst, k) == Some(a.answer)
  }

  /** The query the script picks for a source index and a fraction. */
  function Picked(links: seq<Option<seq<nat>>>, hops: nat, src: int, fraction: real): Option<nat>
    requires fraction >= 0.0
  {
    Pick(Filter(HopGroup(links, hops, |links|), links, src), fraction)
  }

  /** One argument; `None` where the script fails because no query is accepted. */
  method BuildArgument(
      t: Table, original: seq<string>, links: seq<Option<seq<nat>>>, values: seq<string>, hops: nat,
      src: int, fraction: real) returns (r: Option<Argument>)
    requires InRange(t) && |original| == |links| == |values| == |t| && fraction >= 0.0
    requires forall i: nat :: i < |t| ==> LineResolved(t, original, i, links[i], values[i], links[i].None?)
    ensures r.None? <==> Picked(links, hops, src, fraction).None?
    ensures r.Some? ==>
              && WellPosed(r.value, t, original) && r.value.src == src
              && Picked(links, hops, src, fraction) == Some(r.value.dst)
              && links[r.value.dst].Some? && |links[r.value.dst].value| + 1 == hops
  {
    var picked := Picked(links, hops, src, fraction);
    if picked.None? {
      return None;
    }
    var dst := picked.value;
    var body := Body(LinesOf(t, original), src);
    var n := |body| / 4;
    AcceptedIff(t, original, src, dst, links[dst].value, values[dst]);
    PartsAreBody(body);
    var a := Argument(src, dst, [body[..n], body[n..2 * n], body[2 * n..3 * n], body[3 * n..]], values[dst]);
    assert a.parts[0] + a.parts[1] + a.parts[2] + a.parts[3] == body;
    assert Follow(body, a.dst, |links[a.dst].value|) == Some(a.answer);
    r := Some(a);
  }

  /** Argument `k` is for source index `k / |fractions|` and fraction `k % |fractions|`. */
  ghost predicate IsFor(a: Argument, k: nat, links: seq<Option<seq<nat>>>, hops: nat,
                        sources: seq<int>, fractions: seq<real>)
  {
    && |fractions| > 0 && k / |fractions| < |sources| && fractions[k % |fractions|] >= 0.0
    && a.src == sources[k / |fractions|]
    && Picked(links, hops, a.src, fractions[k % |fractions|]) == Some(a.dst)
  }

  ghost predicate AllFor(args: seq<Argument>, t: Table, original: seq<string>, links: seq<Option<seq<nat>>>, hops: nat,
                         sources: seq<int>, fractions: seq<real>)
  {
    forall k :: 0 <= k < |args| ==> WellPosed(args[k], t, original) && IsFor(args[k], k, links, hops, sources, fractions)
  }

  lemma CellIsFor(a: Argument, i: nat, j: nat, links: seq<Option<seq<nat>>>, hops: nat,
                  sources: seq<int>, fractions: seq<real>)
    requires i < |sources| && j < |fractions| && fractions[j] >= 0.0 && a.src == sources[i]
    requires Picked(links, hops, a.src, fractions[j]) == Some(a.dst)
    ensures IsFor(a, i * |fractions| + j, links, hops, sources, fractions)
  {
    QuotientAndRest(i, j, |fractions|);
  }

  /** Some query is accepted. */
  predicate Answerable(links: seq<Option<seq<nat>>>, hops: nat, src: int) {
    Filter(HopGroup(links, hops, |links|), links, src) != []
  }

  /** The arguments of one source index, one per fraction. */
  method BuildRow(
      t: Table, original: seq<string>, links: seq<Option<seq<nat>>>, values: seq<string>, hops: nat,
      sources: seq<int>, fractions: seq<real>, i: nat, args: seq<Argument>) returns (ok: bool, now: seq<Argument>)
    requires InRange(t) && |original| == |links| == |values| == |t|
    requires forall q: nat :: q < |t| ==> LineResolved(t, original, q, links[q], values[q], links[q].None?)
    requires forall j :: 0 <= j < |fractions| ==> fractions[j] >= 0.0
    requires i < |sources| && |args| == i * |fractions| && AllFor(args, t, original, links, hops, sources, fractions)
    ensures AllFor(now, t, original, links, hops, sources, fractions)
    ensures ok ==> |now| == |args| + |fractions|
    ensures ok <==> fractions == [] || Answerable(links, hops, sources[i])
  {
    now := args;
    var j := 0;
    while j < |fractions|
      invariant 0 <= j <= |fractions| && |now| == |args| + j
      invariant AllFor(now, t, original, links, hops, sources, fractions)
      invariant j > 0 ==> Answerable(links, hops, sources[i])
    {
      var a := BuildArgument(t, original, links, values, hops, sources[i], fractions[j]);
      if a.None? {
        assert !Answerable(links, hops, sources[i]);
        return false, now;
      }
      CellIsFor(a.value, i, j, links, hops, sources, fractions);
      OneMoreFor(now, a.value, t, original, links, hops, sources, fractions);
      now := now + [a.value];
      j := j + 1;
    }
    ok := true;
  }

  lemma OneMoreFor(args: seq<Argument>, a: Argument, t: Table, original: seq<string>, links: seq<Option<seq<nat>>>, hops: nat,
                   sources: seq<int>, fractions: seq<real>)
    requires AllFor(args, t, original, links, hops, sources, fractions)
    requires WellPosed(a, t, original) && IsFor(a, |args|, links, hops, sources, fractions)
    ensures AllFor(args + [a], t, original, links, hops, sources, fractions)
  {
  }

  lemma NextRow(i: nat, n: nat)
    ensures i * n + n == (i + 1) * n
  {
  }

  /** One argument per source index and fraction; stops with `false` where the script would fail. */
  method BuildArguments(
      t: Table, original: seq<string>, links: seq<Option<seq<nat>>>, values: seq<string>, hops: nat,
      sources: seq<int>, fractions: seq<real>) returns (ok: bool, args: seq<Argument>)
    requires InRange(t) && |original| == |links| == |values| == |t|
    requires forall i: nat :: i < |t| ==> LineResolved(t, original, i, links[i], values[i], links[i].None?)
    requires forall j :: 0 <= j < |fractions| ==> fractions[j] >= 0.0
    ensures AllFor(args, t, original, links, hops, sources, fractions)
    ensures ok ==> |args| == |sources| * |fractions|
    ensures ok <==> fractions == [] || forall i :: 0 <= i < |sources| ==> Answerable(links, hops, sources[i])
  {
    args := [];
    var i := 0;
    while i < |sources|
      invariant 0 <= i <= |sources| && |args| == i * |fractions|
      invariant AllFor(args, t, original, links, hops, sources, fractions)
      invariant fractions == [] || forall k :: 0 <= k < i ==> Answerable(links, hops, sources[k])
    {
      ok, args := BuildRow(t, original, links, values, hops, sources, fractions, i, args);
      if !ok {
        return;
      }
      NextRow(i, |fractions|);
      i := i + 1;
    }
    ok := true;
  }
}
