/** The three changes to the tree: cutting a piece in two, hanging a new leaf, and taking a leaf away. */
module RadixUpdates {
  import opened RadixTree

  // ---------- cutting ----------

  /** The piece of node `c` is cut behind `k` letters; node `s` takes its front. */
  function Split(t: Tree, c: nat, k: nat, s: nat): Tree
    requires c in t && t[c].parent in t && 0 < k < |t[c].key| && |t[c].value| == |t[c].key|
  {
    var x := t[c];
    var q := x.parent;
    t[q := t[q].(children := t[q].children[x.key[0] := s])]
     [s := Node(q, x.key[..k], x.value[..k], x.lock, map[x.key[k] := c])]
     [c := x.(parent := s, key := x.key[k..], value := x.value[k..])]
  }

  ghost function SplitPaths(t: Tree, path: Paths, c: nat, k: nat, s: nat): Paths
    requires c in t && t[c].parent in path && 0 < k < |t[c].key|
  {
    path[s := path[t[c].parent] + t[c].key[..k]]
  }

  ghost predicate CanSplit(t: Tree, path: Paths, c: nat, k: nat, s: nat) {
    Shape(t, path) && c in t && c != ROOT && 0 < k < |t[c].key| && s !in t && s != ROOT
  }

  lemma SplitDefined(t: Tree, path: Paths, c: nat, k: nat, s: nat)
    requires CanSplit(t, path, c, k, s)
    ensures t[c].parent in t && t[c].parent in path && |t[c].value| == |t[c].key| && c != s && t[c].parent != s
    ensures t[c].parent != c
  {
    assert NodeOk(t, path, c);
    assert |path[c]| == |path[t[c].parent]| + |t[c].key|;
  }

  lemma SplitNodes(t: Tree, path: Paths, c: nat, k: nat, s: nat, n: nat)
    requires CanSplit(t, path, c, k, s)
    requires t[c].parent in t && t[c].parent in path && |t[c].value| == |t[c].key| && c != s && t[c].parent != s
    requires t[c].parent != c
    requires n in Split(t, c, k, s) && n != ROOT
    ensures Split(t, c, k, s).Keys == SplitPaths(t, path, c, k, s).Keys
    ensures NodeOk(Split(t, c, k, s), SplitPaths(t, path, c, k, s), n)
  {
    var x, q := t[c], t[c].parent;
    var u, w := Split(t, c, k, s), SplitPaths(t, path, c, k, s);
    assert NodeOk(t, path, c);
    assert x.key[..k] + x.key[k..] == x.key;
    if n == c {
      assert w[c] == path[q] + x.key == (path[q] + x.key[..k]) + x.key[k..];
    } else if n != s {
      assert NodeOk(t, path, n);
      if t[n].parent == q { assert t[n].key[0] != x.key[0]; }
    }
  }

  lemma SplitChildren(t: Tree, path: Paths, c: nat, k: nat, s: nat, n: nat, l: Letter)
    requires CanSplit(t, path, c, k, s)
    requires t[c].parent in t && t[c].parent in path && |t[c].value| == |t[c].key| && c != s && t[c].parent != s
    requires t[c].parent != c
    requires n in Split(t, c, k, s) && l in Split(t, c, k, s)[n].children
    ensures ChildOk(Split(t, c, k, s), n, l)
  {
    assert NodeOk(t, path, c);
    if n in t && l in t[n].children {
      assert ChildOk(t, n, l);
      if t[n].children[l] == c { assert n == t[c].parent && l == t[c].key[0]; }
    }
  }

  lemma SplitKeepsShape(t: Tree, path: Paths, c: nat, k: nat, s: nat)
    requires CanSplit(t, path, c, k, s)
    ensures t[c].parent in t && t[c].parent in path && |t[c].value| == |t[c].key|
    ensures Shape(Split(t, c, k, s), SplitPaths(t, path, c, k, s))
  {
    SplitDefined(t, path, c, k, s);
    var u, w := Split(t, c, k, s), SplitPaths(t, path, c, k, s);
    forall n | n in u && n != ROOT ensures NodeOk(u, w, n) { SplitNodes(t, path, c, k, s, n); }
    forall n, l | n in u && l in u[n].children ensures ChildOk(u, n, l) { SplitChildren(t, path, c, k, s, n, l); }
  }

  /** The node that covers a prefix after the cut. */
  function AfterSplit(t: Tree, path: Paths, c: nat, k: nat, s: nat, n: nat, d: nat): nat
    requires c in t && c in path
  {
    if n == c && d <= |path[c]| - |t[c].key| + k then s else n
  }

  lemma SplitHoldsOn(t: Tree, path: Paths, c: nat, k: nat, s: nat, n: nat, key: Key, d: nat, v: int)
    requires CanSplit(t, path, c, k, s) && t[c].parent in t && t[c].parent in path && |t[c].value| == |t[c].key|
    requires HoldsAt(t, path, n, key, d, v)
    ensures HoldsAt(Split(t, c, k, s), SplitPaths(t, path, c, k, s), AfterSplit(t, path, c, k, s, n, d), key, d, v)
  {
    SplitDefined(t, path, c, k, s);
    assert NodeOk(t, path, c);
    var u, w, m := Split(t, c, k, s), SplitPaths(t, path, c, k, s), AfterSplit(t, path, c, k, s, n, d);
    if n == c {
      var q, x := t[c].parent, t[c];
      forall i | 0 <= i < |w[s]| ensures w[s][i] == path[c][i] { }
      assert m == s ==> u[s].value == x.value[..k];
      assert m == c ==> u[c].value == x.value[k..];
    }
  }

  lemma SplitHeldBefore(t: Tree, path: Paths, c: nat, k: nat, s: nat, n: nat, key: Key, d: nat, v: int)
    requires CanSplit(t, path, c, k, s) && t[c].parent in t && t[c].parent in path && |t[c].value| == |t[c].key|
    requires HoldsAt(Split(t, c, k, s), SplitPaths(t, path, c, k, s), n, key, d, v)
    ensures HoldsAt(t, path, if n == s then c else n, key, d, v)
  {
    SplitDefined(t, path, c, k, s);
    assert NodeOk(t, path, c);
    var u, w := Split(t, c, k, s), SplitPaths(t, path, c, k, s);
    if n == s {
      forall i | 0 <= i < |w[s]| ensures w[s][i] == path[c][i] { }
    }
  }

  /** The same slots for the same prefixes. */
  ghost predicate SameContent(t: Tree, path: Paths, u: Tree, w: Paths) {
    forall key, d: nat, v {:trigger Holds(t, path, key, d, v)} {:trigger Holds(u, w, key, d, v)} ::
      Holds(t, path, key, d, v) <==> Holds(u, w, key, d, v)
  }

  lemma SameContentTwice(t: Tree, path: Paths, u: Tree, w: Paths, x: Tree, y: Paths)
    requires SameContent(t, path, u, w) && SameContent(u, w, x, y)
    ensures SameContent(t, path, x, y)
  {
    forall key, d: nat, v ensures Holds(t, path, key, d, v) <==> Holds(x, y, key, d, v) {
      assert Holds(t, path, key, d, v) <==> Holds(u, w, key, d, v);
    }
  }

  lemma StoredIsHeld(t: Tree, path: Paths, key: Key, d: nat)
    requires Shape(t, path)
    ensures Stored(t, path, key, d) <==> exists v :: Holds(t, path, key, d, v)
  {
    if n :| Covers(t, path, n, key, d) { CoverHasSlot(t, path, n, key, d); }
    if v :| Holds(t, path, key, d, v) {
      var n :| HoldsAt(t, path, n, key, d, v);
    }
  }

  lemma SameLongest(t: Tree, path: Paths, u: Tree, w: Paths, key: Key, d: nat)
    requires Shape(t, path) && Shape(u, w) && SameContent(t, path, u, w) && LongestIs(u, w, key, d)
    ensures LongestIs(t, path, key, d)
  {
    forall e: nat ensures Stored(t, path, key, e) <==> Stored(u, w, key, e) {
      StoredIsHeld(t, path, key, e);
      StoredIsHeld(u, w, key, e);
      if v :| Holds(t, path, key, e, v) { assert Holds(u, w, key, e, v); }
      if v :| Holds(u, w, key, e, v) { assert Holds(t, path, key, e, v); }
    }
  }

  /** Cutting a piece does not change what the tree holds. */
  lemma SplitKeepsContent(t: Tree, path: Paths, c: nat, k: nat, s: nat)
    requires CanSplit(t, path, c, k, s)
    ensures t[c].parent in t && t[c].parent in path && |t[c].value| == |t[c].key|
    ensures SameContent(t, path, Split(t, c, k, s), SplitPaths(t, path, c, k, s))
  {
    SplitDefined(t, path, c, k, s);
    var u, w := Split(t, c, k, s), SplitPaths(t, path, c, k, s);
    forall key, d: nat, v ensures Holds(t, path, key, d, v) <==> Holds(u, w, key, d, v) {
      if n :| HoldsAt(t, path, n, key, d, v) { SplitHoldsOn(t, path, c, k, s, n, key, d, v); }
      if n :| HoldsAt(u, w, n, key, d, v) { SplitHeldBefore(t, path, c, k, s, n, key, d, v); }
    }
  }

  // ---------- hanging a leaf ----------

  /** Node `s` with a piece of its own becomes a child of node `n`. */
  function Attach(t: Tree, n: nat, s: nat, key: Key, value: seq<int>): Tree
    requires n in t && key != []
  {
    t[n := t[n].(children := t[n].children[key[0] := s])][s := Node(n, key, value, 0, map[])]
  }

  ghost function AttachPaths(path: Paths, n: nat, s: nat, key: Key): Paths
    requires n in path
  {
    path[s := path[n] + key]
  }

  ghost predicate CanAttach(t: Tree, path: Paths, n: nat, s: nat, key: Key, value: seq<int>) {
    && Shape(t, path) && n in t && s !in t && s != ROOT && key != [] && |value| == |key|
    && key[0] !in t[n].children
  }

  lemma AttachNodes(t: Tree, path: Paths, n: nat, s: nat, key: Key, value: seq<int>, m: nat)
    requires CanAttach(t, path, n, s, key, value) && m in Attach(t, n, s, key, value) && m != ROOT
    ensures NodeOk(Attach(t, n, s, key, value), AttachPaths(path, n, s, key), m)
  {
    if m != s { assert NodeOk(t, path, m); }
  }

  lemma AttachChildren(t: Tree, path: Paths, n: nat, s: nat, key: Key, value: seq<int>, m: nat, l: Letter)
    requires CanAttach(t, path, n, s, key, value)
    requires m in Attach(t, n, s, key, value) && l in Attach(t, n, s, key, value)[m].children
    ensures ChildOk(Attach(t, n, s, key, value), m, l)
  {
    if m in t && l in t[m].children { assert ChildOk(t, m, l); }
  }

  lemma AttachKeepsShape(t: Tree, path: Paths, n: nat, s: nat, key: Key, value: seq<int>)
    requires CanAttach(t, path, n, s, key, value)
    ensures Shape(Attach(t, n, s, key, value), AttachPaths(path, n, s, key))
  {
    var u, w := Attach(t, n, s, key, value), AttachPaths(path, n, s, key);
    forall m | m in u && m != ROOT ensures NodeOk(u, w, m) {
      AttachNodes(t, path, n, s, key, value, m);
    }
    forall m, l | m in u && l in u[m].children ensures ChildOk(u, m, l) {
      AttachChildren(t, path, n, s, key, value, m, l);
    }
  }

  /** What the tree holds afterwards: what it held, and the prefixes that end in the new piece. */
  lemma AttachHolds(
      t: Tree, path: Paths, n: nat, s: nat, key: Key, value: seq<int>, x: Key, d: nat, v: int)
    requires CanAttach(t, path, n, s, key, value)
    ensures var u, w := Attach(t, n, s, key, value), AttachPaths(path, n, s, key);
      Holds(u, w, x, d, v) <==>
        || Holds(t, path, x, d, v)
        || (|path[n]| < d <= |w[s]| && Agree(w[s], x, d) && value[d - 1 - |path[n]|] == v)
  {
    var u, w := Attach(t, n, s, key, value), AttachPaths(path, n, s, key);
    if m :| HoldsAt(t, path, m, x, d, v) { assert HoldsAt(u, w, m, x, d, v); }
    if |path[n]| < d <= |w[s]| && Agree(w[s], x, d) && value[d - 1 - |path[n]|] == v {
      assert HoldsAt(u, w, s, x, d, v);
    }
    if m :| HoldsAt(u, w, m, x, d, v) {
      if m != s { assert HoldsAt(t, path, m, x, d, v); }
    }
  }

  // ---------- taking a leaf away ----------

  function Detach(t: Tree, x: nat): Tree
    requires x in t && t[x].parent in t && t[x].key != []
  {
    var q := t[x].parent;
    t[q := t[q].(children := t[q].children - {t[x].key[0]})] - {x}
  }

  ghost predicate CanDetach(t: Tree, path: Paths, x: nat) {
    Shape(t, path) && x in t && x != ROOT && t[x].children == map[]
  }

  lemma DetachDefined(t: Tree, path: Paths, x: nat)
    requires CanDetach(t, path, x)
    ensures t[x].parent in t && t[x].key != [] && t[x].parent != x && |t[x].value| == |t[x].key|
  {
    assert NodeOk(t, path, x);
    assert |path[x]| == |path[t[x].parent]| + |t[x].key|;
  }

  lemma DetachKeepsShape(t: Tree, path: Paths, x: nat)
    requires CanDetach(t, path, x)
    ensures t[x].parent in t && t[x].key != [] && Shape(Detach(t, x), path - {x})
  {
    DetachDefined(t, path, x);
    assert NodeOk(t, path, x);
    var u, w := Detach(t, x), path - {x};
    forall m | m in u && m != ROOT ensures NodeOk(u, w, m) {
      assert NodeOk(t, path, m);
      if t[m].parent == x { assert false; }
    }
    forall m, l | m in u && l in u[m].children ensures ChildOk(u, m, l) {
      assert ChildOk(t, m, l);
    }
  }

  /** What the tree holds afterwards: what it held, but for the prefixes that ended in the leaf. */
  lemma DetachHolds(t: Tree, path: Paths, x: nat, key: Key, d: nat, v: int)
    requires CanDetach(t, path, x)
    ensures t[x].parent in t && t[x].key != []
    ensures Holds(Detach(t, x), path - {x}, key, d, v) <==> Holds(t, path, key, d, v) && !Covers(t, path, x, key, d)
  {
    DetachDefined(t, path, x);
    var u, w := Detach(t, x), path - {x};
    if m :| HoldsAt(u, w, m, key, d, v) {
      assert HoldsAt(t, path, m, key, d, v);
      if Covers(t, path, x, key, d) { OneCover(t, path, key, d, m, x); }
    }
    if m :| HoldsAt(t, path, m, key, d, v) {
      if m != x { assert HoldsAt(u, w, m, key, d, v); }
    }
  }
}
