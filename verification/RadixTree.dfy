/**
 The radix tree of the KV cache as a table of nodes. A key is a list of letters, one per page of tokens, each letter
 carrying the name space of its key; a node holds a piece of a key and one KV slot per letter of it.

 The proofs speak of `path`, which gives each node the letters from the root down to its own last one. A node covers
 the prefixes of its path that end in its own piece.
 */
module RadixTree {
  import opened Wrappers

  datatype Letter = Letter(space: Option<string>, page: seq<int>)

  type Key = seq<Letter>

  datatype Node = Node(parent: nat, key: Key, value: seq<int>, lock: nat, children: map<Letter, nat>)

  type Tree = map<nat, Node>

  type Paths = map<nat, Key>

  const ROOT: nat := 0

  // ---------- the shape ----------

  ghost predicate NodeOk(t: Tree, path: Paths, n: nat)
    requires n in t && path.Keys == t.Keys
  {
    var x := t[n];
    && x.key != [] && |x.value| == |x.key|
    && x.parent in t && x.key[0] in t[x.parent].children && t[x.parent].children[x.key[0]] == n
    && path[n] == path[x.parent] + x.key
  }

  ghost predicate ChildOk(t: Tree, n: nat, l: Letter)
    requires n in t && l in t[n].children
  {
    var c := t[n].children[l];
    c in t && c != ROOT && t[c].parent == n && t[c].key != [] && t[c].key[0] == l
  }

  ghost predicate Shape(t: Tree, path: Paths) {
    && path.Keys == t.Keys && ROOT in t && path[ROOT] == [] && t[ROOT].key == [] && t[ROOT].value == []
    && (forall n {:trigger NodeOk(t, path, n)} :: n in t && n != ROOT ==> NodeOk(t, path, n))
    && (forall n, l {:trigger ChildOk(t, n, l)} :: n in t && l in t[n].children ==> ChildOk(t, n, l))
  }

  /** The first `d` letters are the same. */
  ghost predicate Agree(a: Key, b: Key, d: nat) {
    d <= |a| && d <= |b| && forall i :: 0 <= i < d ==> a[i] == b[i]
  }

  /** Where the piece of node `n` starts. */
  ghost function Base(t: Tree, path: Paths, n: nat): int
    requires n in t && n in path
  {
    |path[n]| - |t[n].key|
  }

  /** The prefix of length `d` of `key` ends in the piece of node `n`. */
  ghost predicate Covers(t: Tree, path: Paths, n: nat, key: Key, d: nat) {
    n in t && n in path && n != ROOT && Base(t, path, n) < d <= |path[n]| && Agree(path[n], key, d)
  }

  ghost predicate Stored(t: Tree, path: Paths, key: Key, d: nat) {
    exists n :: Covers(t, path, n, key, d)
  }

  /** The tree holds slot `v` for the prefix of length `d` of `key`. */
  ghost predicate Holds(t: Tree, path: Paths, key: Key, d: nat, v: int) {
    exists n :: HoldsAt(t, path, n, key, d, v)
  }

  ghost predicate HoldsAt(t: Tree, path: Paths, n: nat, key: Key, d: nat, v: int) {
    && Covers(t, path, n, key, d)
    && 0 <= d - 1 - Base(t, path, n) < |t[n].value| && t[n].value[d - 1 - Base(t, path, n)] == v
  }

  lemma HoldsShorter(t: Tree, path: Paths, x: Key, y: Key, d: nat, v: int)
    requires Holds(t, path, x, d, v) && Agree(x, y, d)
    ensures Holds(t, path, y, d, v)
  {
    var n :| HoldsAt(t, path, n, x, d, v);
    assert HoldsAt(t, path, n, y, d, v);
  }

  // ---------- name spaces ----------

  /** All letters of a key carry the same name space. */
  ghost predicate Uniform(key: Key) {
    forall i, j :: 0 <= i < |key| && 0 <= j < |key| ==> key[i].space == key[j].space
  }

  ghost predicate Spaced(path: Paths) {
    forall n {:trigger path[n]} :: n in path ==> Uniform(path[n])
  }

  /** A child found by its letter has pieces of that letter's name space only, so comparing them is no error. */
  lemma ChildHasSpace(t: Tree, path: Paths, n: nat, l: Letter, i: nat)
    requires Shape(t, path) && Spaced(path) && n in t && l in t[n].children
    ensures var c := t[n].children[l]; c in t && (i < |t[c].key| ==> t[c].key[i].space == l.space)
  {
    var c := t[n].children[l];
    assert ChildOk(t, n, l);
    assert NodeOk(t, path, c);
    if i < |t[c].key| {
      var b := |path[n]|;
      assert path[c][b] == t[c].key[0] && path[c][b + i] == t[c].key[i];
    }
  }

  // ---------- one node per prefix ----------

  lemma ParentCovers(t: Tree, path: Paths, n: nat, key: Key, d: nat)
    requires Shape(t, path) && Covers(t, path, n, key, d)
    ensures var p := t[n].parent;
      p in t && |path[p]| == Base(t, path, n) && Agree(path[p], key, |path[p]|)
      && (p == ROOT <==> Base(t, path, n) == 0) && (p != ROOT ==> Covers(t, path, p, key, |path[p]|))
  {
    var p := t[n].parent;
    assert NodeOk(t, path, n);
    forall i | 0 <= i < |path[p]| ensures path[p][i] == key[i] { assert path[n][i] == path[p][i]; }
    if p != ROOT { assert NodeOk(t, path, p); }
  }

  /** Two nodes that cover a prefix from the same start hang on the same letter of the same parent. */
  lemma SameParent(t: Tree, path: Paths, key: Key, d: nat, n: nat, m: nat)
    requires Shape(t, path) && Covers(t, path, n, key, d) && Covers(t, path, m, key, d)
    requires Base(t, path, n) == Base(t, path, m) && t[n].parent == t[m].parent
    ensures n == m
  {
    assert NodeOk(t, path, n) && NodeOk(t, path, m);
    var b := Base(t, path, n);
    assert path[n][b] == t[n].key[0] && path[m][b] == t[m].key[0];
  }

  lemma {:induction false} OneCover(t: Tree, path: Paths, key: Key, d: nat, n: nat, m: nat)
    requires Shape(t, path) && Covers(t, path, n, key, d) && Covers(t, path, m, key, d)
    ensures n == m
    decreases d, if Base(t, path, n) <= Base(t, path, m) then 0 else 1
  {
    var a, b := Base(t, path, n), Base(t, path, m);
    ParentCovers(t, path, n, key, d);
    ParentCovers(t, path, m, key, d);
    if a == b {
      if a > 0 { OneCover(t, path, key, a, t[n].parent, t[m].parent); }
      SameParent(t, path, key, d, n, m);
    } else if a < b {
      OneCover(t, path, key, b, n, t[m].parent);
    } else {
      OneCover(t, path, key, d, m, n);
    }
  }

  /** A prefix has at most one slot. */
  lemma OneSlot(t: Tree, path: Paths, key: Key, d: nat, v: int, w: int)
    requires Shape(t, path) && Holds(t, path, key, d, v) && Holds(t, path, key, d, w)
    ensures v == w
  {
    var n :| HoldsAt(t, path, n, key, d, v);
    var m :| HoldsAt(t, path, m, key, d, w);
    OneCover(t, path, key, d, n, m);
  }

  lemma CoverHasSlot(t: Tree, path: Paths, n: nat, key: Key, d: nat)
    requires Shape(t, path) && Covers(t, path, n, key, d)
    ensures Base(t, path, n) >= 0 && d - 1 - Base(t, path, n) < |t[n].value|
    ensures Holds(t, path, key, d, t[n].value[d - 1 - Base(t, path, n)])
  {
    assert NodeOk(t, path, n);
    assert HoldsAt(t, path, n, key, d, t[n].value[d - 1 - Base(t, path, n)]);
  }

  /** With a prefix, all its shorter ones are stored, on the way down to it. */
  lemma {:induction false} ShorterStored(t: Tree, path: Paths, key: Key, d: nat, n: nat, e: nat) returns (m: nat)
    requires Shape(t, path) && Covers(t, path, n, key, d) && 0 < e <= d
    ensures Covers(t, path, m, key, e) && Agree(path[m], path[n], |path[m]|)
    decreases d
  {
    if e > Base(t, path, n) {
      m := n;
    } else {
      ParentCovers(t, path, n, key, d);
      var p := t[n].parent;
      m := ShorterStored(t, path, key, |path[p]|, p, e);
      assert NodeOk(t, path, n);
      forall i | 0 <= i < |path[m]| ensures path[m][i] == path[n][i] { assert path[p][i] == path[n][i]; }
    }
  }

  // ---------- the walk ----------

  /** Node `n` stands for the first `d` letters of `key`. */
  ghost predicate At(t: Tree, path: Paths, n: nat, key: Key, d: nat) {
    n in t && n in path && |path[n]| == d && Agree(path[n], key, d)
  }

  lemma OneAt(t: Tree, path: Paths, key: Key, d: nat, n: nat, m: nat)
    requires Shape(t, path) && At(t, path, n, key, d) && At(t, path, m, key, d)
    ensures n == m
  {
    if n != ROOT { assert NodeOk(t, path, n); }
    if m != ROOT { assert NodeOk(t, path, m); }
    if d > 0 { OneCover(t, path, key, d, n, m); }
  }

  lemma ChildCovers(t: Tree, path: Paths, n: nat, key: Key, d: nat)
    requires Shape(t, path) && At(t, path, n, key, d) && d < |key| && key[d] in t[n].children
    ensures var c := t[n].children[key[d]]; Covers(t, path, c, key, d + 1) && Base(t, path, c) == d
  {
    var c := t[n].children[key[d]];
    assert ChildOk(t, n, key[d]);
    assert NodeOk(t, path, c);
    assert path[c][d] == t[c].key[0];
    forall i | 0 <= i < d ensures path[c][i] == key[i] { assert path[c][i] == path[n][i]; }
  }

  /** A longer prefix below node `n` is stored only if the child for the next letter exists. */
  lemma NoChildNoPrefix(t: Tree, path: Paths, n: nat, key: Key, d: nat)
    requires Shape(t, path) && At(t, path, n, key, d) && d < |key| && key[d] !in t[n].children
    ensures !Stored(t, path, key, d + 1)
  {
    var e := d + 1;
    forall m: nat ensures !Covers(t, path, m, key, e) {
      if Covers(t, path, m, key, e) { NextIsBelow(t, path, n, key, d, m); }
    }
  }

  lemma NextIsBelow(t: Tree, path: Paths, n: nat, key: Key, d: nat, m: nat)
    requires Shape(t, path) && At(t, path, n, key, d) && d < |key| && Covers(t, path, m, key, d + 1)
    ensures t[m].parent == n && key[d] in t[n].children && t[n].children[key[d]] == m
  {
    ParentCovers(t, path, m, key, d + 1);
    if Base(t, path, m) < d {
      if n != ROOT { assert NodeOk(t, path, n); }
      OneCover(t, path, key, d, m, n);
    } else {
      OneAt(t, path, key, d, n, t[m].parent);
      assert NodeOk(t, path, m);
      assert path[m][d] == t[m].key[0];
    }
  }

  /** No prefix of `key` longer than `d` is stored. */
  ghost predicate LongestIs(t: Tree, path: Paths, key: Key, d: nat) {
    && d <= |key| && (d > 0 ==> Stored(t, path, key, d))
    && forall e :: d < e <= |key| ==> !Stored(t, path, key, e)
  }

  lemma NoNextMeansLongest(t: Tree, path: Paths, key: Key, d: nat)
    requires Shape(t, path) && d <= |key| && (d > 0 ==> Stored(t, path, key, d))
    requires d < |key| ==> !Stored(t, path, key, d + 1)
    ensures LongestIs(t, path, key, d)
  {
    forall e | d < e <= |key| ensures !Stored(t, path, key, e) {
      if n :| Covers(t, path, n, key, e) {
        var m := ShorterStored(t, path, key, e, n, d + 1);
      }
    }
  }

  /** The walk ends at node `n` when there is no child for the next letter. */
  lemma WalkEnds(t: Tree, path: Paths, n: nat, key: Key, d: nat)
    requires Shape(t, path) && At(t, path, n, key, d) && (d < |key| ==> key[d] !in t[n].children)
    ensures LongestIs(t, path, key, d)
  {
    if d > 0 {
      assert NodeOk(t, path, n);
      assert Covers(t, path, n, key, d);
    }
    if d < |key| { NoChildNoPrefix(t, path, n, key, d); }
    NoNextMeansLongest(t, path, key, d);
  }

  /** A piece that differs from `key` behind `d` letters, inside node `c`, ends the match there. */
  lemma MismatchEnds(t: Tree, path: Paths, c: nat, key: Key, d: nat)
    requires Shape(t, path) && Covers(t, path, c, key, d) && d < |path[c]|
    requires d < |key| ==> path[c][d] != key[d]
    ensures LongestIs(t, path, key, d)
  {
    assert NodeOk(t, path, c);
    if d < |key| {
      var e := d + 1;
      forall m: nat ensures !Covers(t, path, m, key, e) {
        if Covers(t, path, m, key, e) {
          ParentCovers(t, path, m, key, e);
          OneCover(t, path, key, d, if Base(t, path, m) < d then m else t[m].parent, c);
        }
      }
    }
    NoNextMeansLongest(t, path, key, d);
  }
}
