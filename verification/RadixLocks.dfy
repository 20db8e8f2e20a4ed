/**
 Locks and sizes of the radix tree. `holds` lists the nodes that requests hold; a node is locked once for every holder
 at or below it, that is, for every held node whose path starts with its own.
 */
module RadixLocks {
  import opened Sums
  import opened RadixTree
  import opened RadixUpdates

  // ---------- holders ----------

  /** Node `h` lies at or below the node with path `key`. */
  ghost predicate Below(path: Paths, h: nat, key: Key) {
    h in path && Agree(key, path[h], |key|)
  }

  /** How many of the first `n` holders do. */
  ghost function Holders(path: Paths, holds: seq<nat>, key: Key, n: nat): nat
    requires n <= |holds|
  {
    if n == 0 then 0 else Holders(path, holds, key, n - 1) + One(Below(path, holds[n - 1], key))
  }

  ghost predicate LockOk(t: Tree, path: Paths, holds: seq<nat>, n: nat)
    requires n in t && n in path
  {
    t[n].lock == Holders(path, holds, path[n], |holds|)
  }

  ghost predicate LockInv(t: Tree, path: Paths, holds: seq<nat>) {
    && path.Keys == t.Keys && (forall i :: 0 <= i < |holds| ==> holds[i] in t)
    && forall n {:trigger LockOk(t, path, holds, n)} :: n in t && n != ROOT ==> LockOk(t, path, holds, n)
  }

  lemma {:induction false} HoldersSame(path: Paths, w: Paths, holds: seq<nat>, key: Key, key': Key, n: nat)
    requires n <= |holds| && forall i :: 0 <= i < n ==> (Below(path, holds[i], key) <==> Below(w, holds[i], key'))
    ensures Holders(path, holds, key, n) == Holders(w, holds, key', n)
  {
    if n > 0 { HoldersSame(path, w, holds, key, key', n - 1); }
  }

  lemma {:induction false} HoldersLess(path: Paths, holds: seq<nat>, key: Key, key': Key, n: nat)
    requires n <= |holds| && forall i :: 0 <= i < n ==> (Below(path, holds[i], key') ==> Below(path, holds[i], key))
    ensures Holders(path, holds, key', n) <= Holders(path, holds, key, n)
  {
    if n > 0 { HoldersLess(path, holds, key, key', n - 1); }
  }

  lemma {:induction false} HoldersNone(path: Paths, holds: seq<nat>, key: Key, n: nat)
    requires n <= |holds|
    ensures Holders(path, holds, key, n) == 0 <==> forall i :: 0 <= i < n ==> !Below(path, holds[i], key)
  {
    if n > 0 { HoldersNone(path, holds, key, n - 1); }
  }

  lemma {:induction false} HoldersMore(path: Paths, holds: seq<nat>, h: nat, key: Key, n: nat)
    requires n <= |holds|
    ensures Holders(path, holds + [h], key, n) == Holders(path, holds, key, n)
  {
    if n > 0 { HoldersMore(path, holds, h, key, n - 1); }
  }

  /** One holder more. */
  lemma HoldersPush(path: Paths, holds: seq<nat>, h: nat, key: Key)
    ensures Holders(path, holds + [h], key, |holds| + 1) ==
              Holders(path, holds, key, |holds|) + One(Below(path, h, key))
  {
    HoldersMore(path, holds, h, key, |holds|);
  }

  lemma {:induction false} HoldersShift(path: Paths, holds: seq<nat>, i: nat, key: Key, n: nat)
    requires i <= n < |holds|
    ensures Holders(path, RemoveAt(holds, i), key, n) + One(Below(path, holds[i], key)) ==
              Holders(path, holds, key, n + 1)
  {
    var rest := RemoveAt(holds, i);
    if n == i {
      HoldersAgree(path, rest, holds, key, n);
    } else {
      HoldersShift(path, holds, i, key, n - 1);
    }
  }

  lemma {:induction false} HoldersAgree(path: Paths, a: seq<nat>, b: seq<nat>, key: Key, n: nat)
    requires n <= |a| && n <= |b| && forall i :: 0 <= i < n ==> a[i] == b[i]
    ensures Holders(path, a, key, n) == Holders(path, b, key, n)
  {
    if n > 0 { HoldersAgree(path, a, b, key, n - 1); }
  }

  /** One holder less. */
  lemma HoldersPop(path: Paths, holds: seq<nat>, i: nat, key: Key)
    requires i < |holds|
    ensures Holders(path, RemoveAt(holds, i), key, |holds| - 1) + One(Below(path, holds[i], key)) ==
              Holders(path, holds, key, |holds|)
  {
    HoldersShift(path, holds, i, key, |holds| - 1);
  }

  // ---------- what the lock invariant says ----------

  /** Locks never increase downwards. */
  lemma ParentLocked(t: Tree, path: Paths, holds: seq<nat>, n: nat)
    requires Shape(t, path) && LockInv(t, path, holds) && n in t && n != ROOT && t[n].parent != ROOT
    ensures t[n].parent in t && t[n].lock <= t[t[n].parent].lock
  {
    var p := t[n].parent;
    assert NodeOk(t, path, n);
    assert LockOk(t, path, holds, n) && LockOk(t, path, holds, p);
    forall i | 0 <= i < |holds| && Below(path, holds[i], path[n]) ensures Below(path, holds[i], path[p]) {
      forall j | 0 <= j < |path[p]| ensures path[p][j] == path[holds[i]][j] { assert path[n][j] == path[p][j]; }
    }
    HoldersLess(path, holds, path[p], path[n], |holds|);
  }

  /** A held node is locked, and an unlocked one has no holder. */
  lemma HeldIsLocked(t: Tree, path: Paths, holds: seq<nat>, n: nat)
    requires LockInv(t, path, holds) && n in holds && n != ROOT
    ensures n in t && t[n].lock > 0
  {
    assert LockOk(t, path, holds, n);
    HoldersNone(path, holds, path[n], |holds|);
    var i :| 0 <= i < |holds| && holds[i] == n;
    assert Below(path, holds[i], path[n]);
  }

  // ---------- the updates keep it ----------

  lemma SplitAbove(t: Tree, path: Paths, c: nat, k: nat, s: nat, h: nat)
    requires CanSplit(t, path, c, k, s) && t[c].parent in t && h in t
    ensures var w := SplitPaths(t, path, c, k, s); Below(w, h, w[s]) <==> Below(path, h, path[c])
  {
    SplitDefined(t, path, c, k, s);
    assert NodeOk(t, path, c);
    var w := SplitPaths(t, path, c, k, s);
    var d := |w[s]|;
    forall i | 0 <= i < d ensures w[s][i] == path[c][i] { }
    if Below(w, h, w[s]) {
      assert h != ROOT && NodeOk(t, path, h);
      var m := ShorterStored(t, path, path[h], |path[h]|, h, d);
      OneCover(t, path, path[h], d, m, c);
    }
  }

  lemma SplitKeepsLocks(t: Tree, path: Paths, holds: seq<nat>, c: nat, k: nat, s: nat)
    requires CanSplit(t, path, c, k, s) && LockInv(t, path, holds)
    ensures t[c].parent in t && t[c].parent in path && |t[c].value| == |t[c].key|
    ensures LockInv(Split(t, c, k, s), SplitPaths(t, path, c, k, s), holds)
  {
    SplitDefined(t, path, c, k, s);
    var u, w := Split(t, c, k, s), SplitPaths(t, path, c, k, s);
    forall n | n in u && n != ROOT ensures LockOk(u, w, holds, n) {
      if n == s {
        assert LockOk(t, path, holds, c);
        forall i | 0 <= i < |holds| ensures Below(path, holds[i], path[c]) <==> Below(w, holds[i], w[s]) {
          SplitAbove(t, path, c, k, s, holds[i]);
        }
        HoldersSame(path, w, holds, path[c], w[s], |holds|);
      } else {
        assert LockOk(t, path, holds, n);
        HoldersSame(path, w, holds, path[n], w[n], |holds|);
      }
    }
  }

  lemma NothingBelowLeaf(t: Tree, path: Paths, n: nat, s: nat, key: Key, value: seq<int>, h: nat)
    requires CanAttach(t, path, n, s, key, value) && h in t
    ensures !Below(AttachPaths(path, n, s, key), h, path[n] + key)
  {
    var w, d := path[n] + key, |path[n]|;
    if Below(AttachPaths(path, n, s, key), h, w) {
      assert path[h][d] == w[d] == key[0];
      forall i | 0 <= i < d ensures path[n][i] == path[h][i] { assert w[i] == path[n][i]; }
      assert h != ROOT && NodeOk(t, path, h);
      var m := ShorterStored(t, path, path[h], |path[h]|, h, d + 1);
      NextIsBelow(t, path, n, path[h], d, m);
    }
  }

  lemma AttachKeepsLocks(t: Tree, path: Paths, holds: seq<nat>, n: nat, s: nat, key: Key, value: seq<int>)
    requires CanAttach(t, path, n, s, key, value) && LockInv(t, path, holds)
    ensures LockInv(Attach(t, n, s, key, value), AttachPaths(path, n, s, key), holds)
  {
    var u, w := Attach(t, n, s, key, value), AttachPaths(path, n, s, key);
    forall m | m in u && m != ROOT ensures LockOk(u, w, holds, m) {
      if m == s {
        forall i | 0 <= i < |holds| ensures !Below(w, holds[i], w[s]) {
          NothingBelowLeaf(t, path, n, s, key, value, holds[i]);
        }
        HoldersNone(w, holds, w[s], |holds|);
      } else {
        assert LockOk(t, path, holds, m);
        HoldersSame(path, w, holds, path[m], w[m], |holds|);
      }
    }
  }

  lemma DetachKeepsLocks(t: Tree, path: Paths, holds: seq<nat>, x: nat)
    requires CanDetach(t, path, x) && LockInv(t, path, holds) && t[x].lock == 0
    ensures t[x].parent in t && t[x].key != [] && LockInv(Detach(t, x), path - {x}, holds)
  {
    DetachDefined(t, path, x);
    var u, w := Detach(t, x), path - {x};
    forall i | 0 <= i < |holds| ensures holds[i] != x {
      if holds[i] == x { HeldIsLocked(t, path, holds, x); }
    }
    forall m | m in u && m != ROOT ensures LockOk(u, w, holds, m) {
      assert LockOk(t, path, holds, m);
      HoldersSame(path, w, holds, path[m], w[m], |holds|);
    }
  }

  // ---------- sizes ----------

  /** The letters of node `n`, if it is locked or not as asked. */
  function Weight(t: Tree, n: nat, locked: bool): nat {
    if n in t && n != ROOT && (t[n].lock > 0) == locked then |t[n].key| else 0
  }

  /** The letters of all such nodes with a number below `n`. */
  function Size(t: Tree, n: nat, locked: bool): nat {
    if n == 0 then 0 else Size(t, n - 1, locked) + Weight(t, n - 1, locked)
  }

  lemma {:induction false} SizeSame(t: Tree, u: Tree, n: nat, locked: bool)
    requires forall i: nat :: i < n ==> Weight(u, i, locked) == Weight(t, i, locked)
    ensures Size(u, n, locked) == Size(t, n, locked)
  {
    if n > 0 { SizeSame(t, u, n - 1, locked); }
  }

  lemma {:induction false} SizeChanges(t: Tree, u: Tree, n: nat, locked: bool, k: nat)
    requires k < n && forall i: nat :: i < n && i != k ==> Weight(u, i, locked) == Weight(t, i, locked)
    ensures Size(u, n, locked) == Size(t, n, locked) - Weight(t, k, locked) + Weight(u, k, locked)
  {
    if k == n - 1 { SizeSame(t, u, n - 1, locked); } else { SizeChanges(t, u, n - 1, locked, k); }
  }

  /** The slots of all nodes with a number below `n`. */
  function TotalSize(t: Tree, n: nat): nat {
    if n == 0 then 0 else TotalSize(t, n - 1) + if n - 1 in t then |t[n - 1].value| else 0
  }

  /** The evictable and the protected size together are the number of slots in the tree. */
  lemma {:induction false} SizesAddUp(t: Tree, path: Paths, n: nat)
    requires Shape(t, path)
    ensures Size(t, n, false) + Size(t, n, true) == TotalSize(t, n)
  {
    if n > 0 {
      SizesAddUp(t, path, n - 1);
      if n - 1 in t && n - 1 != ROOT { assert NodeOk(t, path, n - 1); }
    }
  }

  ghost predicate BelowNext(t: Tree, next: nat) {
    ROOT < next && forall n :: n in t ==> n < next
  }

  lemma SplitKeepsSizes(t: Tree, path: Paths, c: nat, k: nat, s: nat, locked: bool)
    requires CanSplit(t, path, c, k, s) && BelowNext(t, s)
    ensures t[c].parent in t && |t[c].value| == |t[c].key| && BelowNext(Split(t, c, k, s), s + 1)
    ensures Size(Split(t, c, k, s), s + 1, locked) == Size(t, s, locked)
  {
    SplitDefined(t, path, c, k, s);
    SizeChanges(t, Split(t, c, k, s), s, locked, c);
  }

  lemma AttachAddsSize(t: Tree, path: Paths, n: nat, s: nat, key: Key, value: seq<int>)
    requires CanAttach(t, path, n, s, key, value) && BelowNext(t, s)
    ensures var u := Attach(t, n, s, key, value);
      && BelowNext(u, s + 1)
      && Size(u, s + 1, false) == Size(t, s, false) + |key| && Size(u, s + 1, true) == Size(t, s, true)
  {
    SizeSame(t, Attach(t, n, s, key, value), s, false);
    SizeSame(t, Attach(t, n, s, key, value), s, true);
  }

  lemma DetachTakesSize(t: Tree, path: Paths, x: nat, next: nat)
    requires CanDetach(t, path, x) && BelowNext(t, next) && t[x].lock == 0
    ensures t[x].parent in t && t[x].key != [] && BelowNext(Detach(t, x), next)
    ensures Size(Detach(t, x), next, false) == Size(t, next, false) - |t[x].key|
    ensures Size(Detach(t, x), next, true) == Size(t, next, true)
  {
    DetachDefined(t, path, x);
    SizeChanges(t, Detach(t, x), next, false, x);
    SizeChanges(t, Detach(t, x), next, true, x);
  }

  // ---------- walking up ----------

  /** The two trees differ in locks only. */
  ghost predicate SameButLocks(t: Tree, u: Tree) {
    u.Keys == t.Keys && forall n {:trigger u[n]} :: n in t ==> u[n] == t[n].(lock := u[n].lock)
  }

  lemma ShapeIgnoresLocks(t: Tree, u: Tree, path: Paths)
    requires Shape(t, path) && SameButLocks(t, u)
    ensures Shape(u, path)
  {
    forall n | n in u && n != ROOT ensures NodeOk(u, path, n) {
      assert NodeOk(t, path, n) && u[n].key == t[n].key;
      assert u[t[n].parent].children == t[t[n].parent].children;
    }
    forall n, l | n in u && l in u[n].children ensures ChildOk(u, n, l) {
      assert l in t[n].children && ChildOk(t, n, l);
      assert u[t[n].children[l]].key == t[t[n].children[l]].key;
    }
  }

  lemma ContentIgnoresLocks(t: Tree, u: Tree, path: Paths)
    requires SameButLocks(t, u)
    ensures SameContent(t, path, u, path)
  {
    forall key, d: nat, v ensures Holds(t, path, key, d, v) <==> Holds(u, path, key, d, v) {
      if n :| HoldsAt(t, path, n, key, d, v) { assert u[n].key == t[n].key && HoldsAt(u, path, n, key, d, v); }
      if n :| HoldsAt(u, path, n, key, d, v) { assert u[n].key == t[n].key && HoldsAt(t, path, n, key, d, v); }
    }
  }

  /** Node `n` lies on the way from `node` up to, but not including, the node with a path of length `d`. */
  ghost predicate Passed(path: Paths, n: nat, node: nat, d: nat) {
    n in path && n != ROOT && |path[n]| > d && Below(path, node, path[n])
  }

  /** The next node on the way up is passed, and no other one. */
  lemma OnePassed(t: Tree, path: Paths, n: nat, node: nat, cur: nat)
    requires Shape(t, path) && node in t && cur in t && cur != ROOT && Below(path, node, path[cur]) && n in t
    ensures t[cur].parent in t && |path[t[cur].parent]| < |path[cur]| && Below(path, node, path[t[cur].parent])
    ensures Passed(path, n, node, |path[t[cur].parent]|) <==> n == cur || Passed(path, n, node, |path[cur]|)
  {
    var p := t[cur].parent;
    assert NodeOk(t, path, cur);
    forall i | 0 <= i < |path[p]| ensures path[p][i] == path[node][i] { assert path[cur][i] == path[p][i]; }
    if Passed(path, n, node, |path[p]|) && |path[n]| <= |path[cur]| {
      assert NodeOk(t, path, n);
      assert Covers(t, path, n, path[node], |path[n]|) && Covers(t, path, cur, path[node], |path[n]|);
      OneCover(t, path, path[node], |path[n]|, n, cur);
    }
  }

  // ---------- leaves ----------

  predicate IsLeaf(t: Tree, n: nat) {
    n in t && n != ROOT && t[n].lock == 0 && t[n].children == map[]
  }

  function Leaves(t: Tree): set<nat> {
    set n | n in t && IsLeaf(t, n)
  }

  /** A bound on the depth of the nodes with a number below `n`. */
  ghost function Depth(path: Paths, n: nat): (b: nat)
    ensures forall m: nat :: m < n && m in path ==> |path[m]| <= b
  {
    if n == 0 then 0
    else
      var b := Depth(path, n - 1);
      if n - 1 in path && |path[n - 1]| > b then |path[n - 1]| else b
  }

  lemma {:induction false} UnlockedHasLeaf(t: Tree, path: Paths, holds: seq<nat>, next: nat, n: nat) returns (x: nat)
    requires Shape(t, path) && LockInv(t, path, holds) && BelowNext(t, next) && n in t && n != ROOT && t[n].lock == 0
    ensures x in Leaves(t)
    decreases Depth(path, next) - |path[n]|
  {
    if t[n].children == map[] {
      x := n;
    } else {
      var l :| l in t[n].children;
      var c := t[n].children[l];
      assert ChildOk(t, n, l);
      assert NodeOk(t, path, c);
      ParentLocked(t, path, holds, c);
      x := UnlockedHasLeaf(t, path, holds, next, c);
    }
  }

  lemma {:induction false} SizeZero(t: Tree, n: nat, locked: bool)
    requires forall i: nat :: i < n ==> Weight(t, i, locked) == 0
    ensures Size(t, n, locked) == 0
  {
    if n > 0 { SizeZero(t, n - 1, locked); }
  }

  /** Without an evictable leaf there is nothing evictable at all. */
  lemma NoLeafNothingEvictable(t: Tree, path: Paths, holds: seq<nat>, next: nat)
    requires Shape(t, path) && LockInv(t, path, holds) && BelowNext(t, next) && Leaves(t) == {}
    ensures Size(t, next, false) == 0
  {
    forall n: nat | n < next ensures Weight(t, n, false) == 0 {
      if n in t && n != ROOT && t[n].lock == 0 {
        var _ := UnlockedHasLeaf(t, path, holds, next, n);
      }
    }
    SizeZero(t, next, false);
  }
}
