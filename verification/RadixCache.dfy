/** The radix cache as an object: its node table, its sizes and its set of evictable leaves are updated in place. */
module Radix {
  import opened Sums
  import opened RadixTree
  import opened RadixUpdates
  import opened RadixLocks

  /** How far a piece agrees with `key` from letter `d` on. */
  function KeyMatch(piece: Key, key: Key, d: nat, i: nat): (r: nat)
    requires i <= |piece| && d + i <= |key|
    ensures i <= r <= |piece| && d + r <= |key|
    ensures forall j :: i <= j < r ==> piece[j] == key[d + j]
    ensures r < |piece| && d + r < |key| ==> piece[r] != key[d + r]
    decreases |piece| - i
  {
    if i == |piece| || d + i == |key| || piece[i] != key[d + i] then i else KeyMatch(piece, key, d, i + 1)
  }

  /** All nodes are still there, with the paths they had. */
  ghost predicate PathsKept(path: Paths, w: Paths) {
    forall n {:trigger w[n]} {:trigger path[n]} :: n in path ==> n in w && w[n] == path[n]
  }

  /** The tree hangs together, and its locks are those of the holders. */
  ghost predicate Sound(t: Tree, path: Paths, holds: seq<nat>) {
    Shape(t, path) && LockInv(t, path, holds) && t[ROOT].lock == 1
  }

  /** The sizes and the leaves fit the tree. */
  ghost predicate Counted(t: Tree, next: nat, evictable: int, guarded: int, leaves: set<nat>) {
    BelowNext(t, next) && evictable == Size(t, next, false) && guarded == Size(t, next, true) && leaves == Leaves(t)
  }

  class RadixCache {
    var nodes: Tree
    var next: nat
    var evictable: int
    var guarded: int
    var leaves: set<nat>
    ghost var path: Paths
    ghost var holds: seq<nat>

    ghost predicate Valid()
      reads this
    {
      Sound(nodes, path, holds) && Counted(nodes, next, evictable, guarded, leaves) && Spaced(path)
    }

    constructor ()
      ensures Valid() && holds == [] && nodes.Keys == {ROOT} && evictable == guarded == 0
    {
      nodes := map[ROOT := Node(ROOT, [], [], 1, map[])];
      next, evictable, guarded, leaves := 1, 0, 0, {};
      path, holds := map[ROOT := []], [];
      new;
      assert Size(nodes, 1, false) == Size(nodes, 0, false) + 0;
      assert Size(nodes, 1, true) == Size(nodes, 0, true) + 0;
    }

    /** Keeps the set of evictable leaves right for one node. */
    method UpdateLeafStatus(n: nat)
      requires n in nodes
      modifies this`leaves
      ensures leaves == if IsLeaf(nodes, n) then old(leaves) + {n} else old(leaves) - {n}
    {
      if n == ROOT || nodes[n].lock > 0 || nodes[n].children != map[] {
        leaves := leaves - {n};
      } else {
        leaves := leaves + {n};
      }
    }

    /** Cuts the piece of node `c` behind `k` letters. */
    method SplitNode(c: nat, k: nat) returns (s: nat)
      requires Valid() && c in nodes && c != ROOT && 0 < k < |nodes[c].key|
      modifies this`nodes, this`next, this`path
      ensures Valid() && PathsKept(old(path), path) && SameContent(old(nodes), old(path), nodes, path)
      ensures s in nodes && s != ROOT && |nodes[s].key| == k
      ensures |path[s]| == Base(old(nodes), old(path), c) + k && Agree(path[s], old(path)[c], |path[s]|)
      ensures old(nodes)[c].key[k] in nodes[s].children && nodes[s].children.Keys == {old(nodes)[c].key[k]}
    {
      s := next;
      SplitDefined(nodes, path, c, k, s);
      SplitKeepsShape(nodes, path, c, k, s);
      SplitKeepsContent(nodes, path, c, k, s);
      SplitKeepsLocks(nodes, path, holds, c, k, s);
      SplitKeepsSizes(nodes, path, c, k, s, false);
      SplitKeepsSizes(nodes, path, c, k, s, true);
      SplitKeepsLeaves(nodes, path, c, k, s);
      assert NodeOk(nodes, path, c);
      ghost var w := SplitPaths(nodes, path, c, k, s);
      forall i | 0 <= i < |w[s]| ensures w[s][i] == path[c][i] { }
      nodes, next := Split(nodes, c, k, s), next + 1;
      path := w;
    }

    /** One step down: the child for the next letter, cut where it stops agreeing with `key`. */
    method Descend(cur: nat, key: Key, d: nat) returns (c: nat, e: nat)
      requires Valid() && At(nodes, path, cur, key, d) && d < |key| && key[d] in nodes[cur].children
      modifies this`nodes, this`next, this`path
      ensures Valid() && PathsKept(old(path), path) && SameContent(old(nodes), old(path), nodes, path)
      ensures d < e <= |key| && At(nodes, path, c, key, e) && c != ROOT && Base(nodes, path, c) == d
      ensures nodes[c].key == key[d..e]
    {
      c := nodes[cur].children[key[d]];
      ChildCovers(nodes, path, cur, key, d);
      assert NodeOk(nodes, path, c);
      assert ChildOk(nodes, cur, key[d]);
      var m := KeyMatch(nodes[c].key, key, d, 0);
      assert m > 0;
      e := d + m;
      forall i | 0 <= i < e ensures path[c][i] == key[i] {
        if i >= d { assert path[c][i] == nodes[c].key[i - d]; }
      }
      if m < |nodes[c].key| {
        c := SplitNode(c, m);
      }
      assert NodeOk(nodes, path, c);
      assert nodes[c].key == path[c][d..e];
    }

    /**
     The longest cached prefix: `value` is the slots of the longest stored prefix of `key` and `last` the node it ends
     at. What the tree holds, its sizes and its locks stay as they are.
     */
    method MatchPrefix(key: Key) returns (value: seq<int>, last: nat)
      requires Valid()
      modifies this`nodes, this`next, this`path
      ensures Valid() && PathsKept(old(path), path) && SameContent(old(nodes), old(path), nodes, path)
      ensures Reads(old(nodes), old(path), key, value) && LongestIs(old(nodes), old(path), key, |value|)
      ensures At(nodes, path, last, key, |value|)
    {
      value, last := [], ROOT;
      while |value| < |key| && key[|value|] in nodes[last].children
        invariant Valid() && PathsKept(old(path), path) && SameContent(old(nodes), old(path), nodes, path)
        invariant |value| <= |key| && At(nodes, path, last, key, |value|) && Reads(nodes, path, key, value)
      {
        ghost var t, w := nodes, path;
        var c, e := Descend(last, key, |value|);
        SameContentTwice(old(nodes), old(path), t, w, nodes, path);
        ReadsOn(t, w, nodes, path, key, value);
        ReadsMore(nodes, path, key, value, c, e);
        value, last := value + nodes[c].value, c;
      }
      WalkEnds(nodes, path, last, key, |value|);
      SameLongest(old(nodes), old(path), nodes, path, key, |value|);
    }

    /**
     Stores `key`: the slots of its longest stored prefix are kept, those of the rest are taken from `value`, and
     nothing else changes.
     */
    method Insert(key: Key, value: seq<int>) returns (prefix: nat)
      requires Valid() && |value| == |key| && Uniform(key)
      modifies this`nodes, this`next, this`path, this`evictable, this`leaves
      ensures Valid() && PathsKept(old(path), path)
      ensures LongestIs(old(nodes), old(path), key, prefix)
      ensures Extended(old(nodes), old(path), nodes, path, key, value, prefix)
      ensures evictable == old(evictable) + (|key| - prefix)
    {
      var cur := ROOT;
      prefix := 0;
      while prefix < |key| && key[prefix] in nodes[cur].children
        invariant Valid() && PathsKept(old(path), path) && SameContent(old(nodes), old(path), nodes, path)
        invariant prefix <= |key| && At(nodes, path, cur, key, prefix)
        invariant evictable == old(evictable)
      {
        ghost var t, w := nodes, path;
        cur, prefix := Descend(cur, key, prefix);
        SameContentTwice(old(nodes), old(path), t, w, nodes, path);
      }
      WalkEnds(nodes, path, cur, key, prefix);
      SameLongest(old(nodes), old(path), nodes, path, key, prefix);
      if prefix < |key| {
        ghost var t, w := nodes, path;
        assert path[cur] + key[prefix..] == key;
        AddLeaf(cur, key[prefix..], value[prefix..]);
        LeafExtends(old(nodes), old(path), t, w, nodes, path, key, value, cur, prefix);
      } else {
        NothingToAdd(old(nodes), old(path), nodes, path, key, value, prefix);
      }
    }

    /** Hangs a new leaf below node `cur`. */
    method AddLeaf(cur: nat, rest: Key, value: seq<int>)
      requires Valid() && cur in nodes && rest != [] && |value| == |rest| && rest[0] !in nodes[cur].children
      requires Uniform(path[cur] + rest)
      modifies this`nodes, this`next, this`path, this`evictable, this`leaves
      ensures Valid() && PathsKept(old(path), path) && evictable == old(evictable) + |rest|
      ensures CanAttach(old(nodes), old(path), cur, old(next), rest, value)
      ensures nodes == Attach(old(nodes), cur, old(next), rest, value)
      ensures path == AttachPaths(old(path), cur, old(next), rest)
    {
      var s := next;
      AttachKeepsSound(nodes, path, holds, cur, s, rest, value);
      AttachKeepsCounts(nodes, path, cur, s, rest, value);
      nodes, next := Attach(nodes, cur, s, rest, value), next + 1;
      path := AttachPaths(path, cur, s, rest);
      evictable := evictable + |rest|;
      UpdateLeafStatus(cur);
      UpdateLeafStatus(s);
    }

    /** Changes one lock; the letters of the node move between the two sizes when it becomes locked or free. */
    method SetLock(cur: nat, lock: nat) returns (moved: int)
      requires cur in nodes && cur != ROOT && Counted(nodes, next, evictable, guarded, leaves)
      modifies this`nodes, this`evictable, this`guarded, this`leaves
      ensures nodes == old(nodes)[cur := old(nodes)[cur].(lock := lock)]
      ensures Counted(nodes, next, evictable, guarded, leaves)
      ensures evictable == old(evictable) + moved && guarded == old(guarded) - moved
      ensures moved == if old(nodes)[cur].lock == 0 < lock then -|nodes[cur].key|
                       else if lock == 0 < old(nodes)[cur].lock then |nodes[cur].key| else 0
    {
      var x := nodes[cur];
      Relocked(nodes, next, cur, lock);
      moved := 0;
      if x.lock == 0 < lock {
        moved := -|x.key|;
      } else if lock == 0 < x.lock {
        moved := |x.key|;
      }
      evictable, guarded := evictable + moved, guarded - moved;
      nodes := nodes[cur := x.(lock := lock)];
      UpdateLeafStatus(cur);
    }

    /** Locks a node and everything above it; `delta` is the change of the evictable size. */
    method IncLockRef(node: nat) returns (delta: int)
      requires Valid() && node in nodes
      modifies this`nodes, this`evictable, this`guarded, this`leaves, this`holds
      ensures Valid() && SameButLocks(old(nodes), nodes) && holds == old(holds) + [node]
      ensures evictable == old(evictable) + delta && guarded == old(guarded) - delta && delta <= 0
    {
      delta := 0;
      var cur := node;
      while cur != ROOT
        invariant holds == old(holds) && cur in nodes && cur in path && Below(path, node, path[cur])
        invariant Climbed(old(nodes), nodes, path, node, |path[cur]|, 1)
        invariant Counted(nodes, next, evictable, guarded, leaves)
        invariant evictable == old(evictable) + delta && guarded == old(guarded) - delta && delta <= 0
        decreases |path[cur]|
      {
        ghost var t := nodes;
        var moved := SetLock(cur, nodes[cur].lock + 1);
        delta := delta + moved;
        ClimbOne(old(nodes), t, nodes, path, node, cur, 1);
        cur := nodes[cur].parent;
      }
      ClimbedLocks(old(nodes), nodes, path, holds, node);
      holds := holds + [node];
    }

    /** Undoes one lock of `node`, which hold `i` says is held. */
    method DecLockRef(node: nat, ghost i: nat) returns (delta: int)
      requires Valid() && i < |holds| && holds[i] == node
      modifies this`nodes, this`evictable, this`guarded, this`leaves, this`holds
      ensures Valid() && SameButLocks(old(nodes), nodes) && holds == RemoveAt(old(holds), i)
      ensures evictable == old(evictable) + delta && guarded == old(guarded) - delta && delta >= 0
    {
      delta := 0;
      var cur := node;
      while cur != ROOT
        invariant holds == old(holds) && cur in nodes && cur in path && Below(path, node, path[cur])
        invariant Climbed(old(nodes), nodes, path, node, |path[cur]|, -1)
        invariant Counted(nodes, next, evictable, guarded, leaves)
        invariant evictable == old(evictable) + delta && guarded == old(guarded) - delta && delta >= 0
        decreases |path[cur]|
      {
        ghost var t := nodes;
        StillLocked(old(nodes), nodes, path, holds, i, cur);
        var moved := SetLock(cur, nodes[cur].lock - 1);
        delta := delta + moved;
        ClimbOne(old(nodes), t, nodes, path, node, cur, -1);
        cur := nodes[cur].parent;
      }
      ReleasedLocks(old(nodes), nodes, path, holds, i);
      holds := RemoveAt(holds, i);
    }

    /** Takes an evictable leaf out of the tree. */
    method DeleteLeaf(x: nat)
      requires Valid() && x in leaves
      modifies this`nodes, this`path, this`evictable, this`leaves
      ensures Valid() && CanDetach(old(nodes), old(path), x) && old(nodes)[x].lock == 0
      ensures old(nodes)[x].parent in old(nodes) && old(nodes)[x].key != []
      ensures nodes == Detach(old(nodes), x) && path == old(path) - {x}
      ensures evictable == old(evictable) - |old(nodes)[x].key|
    {
      DetachDefined(nodes, path, x);
      DetachKeepsShape(nodes, path, x);
      DetachKeepsLocks(nodes, path, holds, x);
      DetachTakesSize(nodes, path, x, next);
      DetachLeaves(nodes, path, x);
      var p := nodes[x].parent;
      evictable := evictable - |nodes[x].key|;
      nodes := Detach(nodes, x);
      path := path - {x};
      leaves := leaves - {x};
      UpdateLeafStatus(p);
    }

    /** One round of eviction: leaf `x` goes, and its parent joins the heap if that makes it an evictable leaf. */
    method EvictOne(heap: set<nat>, x: nat) returns (rest: set<nat>, value: seq<int>)
      requires Valid() && heap == leaves && x in heap
      modifies this`nodes, this`path, this`evictable, this`leaves
      ensures Valid() && rest == leaves && evictable == old(evictable) - |value| && |nodes| < |old(nodes)|
      ensures CanDetach(old(nodes), old(path), x) && old(nodes)[x].lock == 0 && value == old(nodes)[x].value
      ensures old(nodes)[x].parent in old(nodes) && old(nodes)[x].key != []
      ensures nodes == Detach(old(nodes), x) && path == old(path) - {x}
    {
      DetachDefined(nodes, path, x);
      DetachLeaves(nodes, path, x);
      value := nodes[x].value;
      var p := nodes[x].parent;
      DeleteLeaf(x);
      rest := heap - {x};
      if nodes[p].children == map[] && nodes[p].lock == 0 {
        rest := rest + {p};
      }
      assert old(nodes).Keys == nodes.Keys + {x};
    }

    /**
     Evicts leaves in the order of their rank until `num` slots are free or nothing is evictable: what is left is part
     of what was stored, whatever is gone has its slots in `freed`, and no locked node is touched. At each point the
     next victim has the lowest rank of the leaves there are, and no victim is taken once there are enough slots.
     */
    method Evict(num: int, rank: nat -> int) returns (freed: seq<int>, ghost victims: seq<nat>)
      requires Valid()
      modifies this`nodes, this`path, this`evictable, this`leaves
      ensures Valid() && Evicted(old(nodes), old(path), nodes, path, freed)
      ensures VictimRun(old(nodes), nodes, victims, rank, |freed|, num)
      ensures evictable == old(evictable) - |freed|
      ensures |freed| >= num || evictable == 0
    {
      freed, victims := [], [];
      var heap := leaves;
      NothingEvicted(nodes, path);
      while |freed| < num && heap != {}
        invariant Valid() && heap == leaves && evictable == old(evictable) - |freed|
        invariant Evicted(old(nodes), old(path), nodes, path, freed)
        invariant VictimRun(old(nodes), nodes, victims, rank, |freed|, num)
        decreases |nodes|
      {
        ghost var t, w := nodes, path;
        var x := PickVictim(heap, rank);
        var value;
        heap, value := EvictOne(heap, x);
        EvictedMore(old(nodes), old(path), t, w, x, freed);
        OneMoreVictim(old(nodes), t, victims, rank, |freed|, num, x);
        freed, victims := freed + value, victims + [x];
      }
      if heap == {} { NoLeafNothingEvictable(nodes, path, holds, next); }
    }
  }

  /** The tree after the leaves `victims` have gone, one by one. */
  ghost function After(t: Tree, victims: seq<nat>): Tree {
    if victims == [] then t
    else
      var n := |victims| - 1;
      var u, x := After(t, victims[..n]), victims[n];
      if x in u && u[x].parent in u && u[x].key != [] then Detach(u, x) else u
  }

  ghost predicate LowestLeaf(t: Tree, x: nat, rank: nat -> int) {
    x in Leaves(t) && forall y :: y in Leaves(t) ==> rank(x) <= rank(y)
  }

  /** Each victim was the lowest leaf when it was taken. */
  ghost predicate ByRank(t: Tree, victims: seq<nat>, rank: nat -> int) {
    forall i :: 0 <= i < |victims| ==> LowestLeaf(After(t, victims[..i]), victims[i], rank)
  }

  /** Without the last victim there were fewer than `num` slots. */
  ghost predicate Needed(t: Tree, victims: seq<nat>, freed: nat, num: int) {
    victims != [] ==>
      var u, x := After(t, victims[..|victims| - 1]), victims[|victims| - 1];
      x in u && freed - |u[x].value| < num
  }

  /** Tree `u` is left of `t` after the victims, each of them lowest at its time and the last one needed. */
  ghost predicate VictimRun(t: Tree, u: Tree, victims: seq<nat>, rank: nat -> int, freed: nat, num: int) {
    u == After(t, victims) && ByRank(t, victims, rank) && Needed(t, victims, freed, num)
  }

  lemma OneMoreVictim(t: Tree, u: Tree, victims: seq<nat>, rank: nat -> int, freed: nat, num: int, x: nat)
    requires VictimRun(t, u, victims, rank, freed, num) && freed < num && LowestLeaf(u, x, rank)
    requires u[x].parent in u && u[x].key != []
    ensures VictimRun(t, Detach(u, x), victims + [x], rank, freed + |u[x].value|, num)
  {
    AfterMore(t, u, victims, x);
    ByRankMore(t, u, victims, rank, x);
  }

  lemma AfterMore(t: Tree, u: Tree, victims: seq<nat>, x: nat)
    requires u == After(t, victims) && x in u && u[x].parent in u && u[x].key != []
    ensures (victims + [x])[..|victims + [x]| - 1] == victims && After(t, victims + [x]) == Detach(u, x)
  {
    assert (victims + [x])[..|victims|] == victims;
  }

  lemma ByRankMore(t: Tree, u: Tree, victims: seq<nat>, rank: nat -> int, x: nat)
    requires u == After(t, victims) && ByRank(t, victims, rank) && LowestLeaf(u, x, rank)
    ensures ByRank(t, victims + [x], rank)
  {
    var more := victims + [x];
    forall i | 0 <= i < |more| ensures LowestLeaf(After(t, more[..i]), more[i], rank) {
      if i < |victims| {
        assert more[..i] == victims[..i];
      } else {
        assert more[..i] == victims;
      }
    }
  }

  /** The heap's top: an evictable leaf of the lowest rank. */
  method PickVictim(heap: set<nat>, rank: nat -> int) returns (x: nat)
    requires heap != {}
    ensures x in heap && forall y :: y in heap ==> rank(x) <= rank(y)
  {
    x :| x in heap;
    var rest := heap - {x};
    while rest != {}
      invariant x in heap && rest <= heap && forall y :: y in heap - rest ==> rank(x) <= rank(y)
      decreases |rest|
    {
      var y :| y in rest;
      rest := rest - {y};
      if rank(y) < rank(x) {
        x := y;
      }
    }
  }

  // ---------- eviction ----------

  lemma DetachLeaves(t: Tree, path: Paths, x: nat)
    requires CanDetach(t, path, x)
    ensures t[x].parent in t && t[x].key != [] && t[x].parent != x
    ensures var u, p := Detach(t, x), t[x].parent;
      && u[ROOT].lock == t[ROOT].lock && p in u
      && Leaves(u) == if IsLeaf(u, p) then (Leaves(t) - {x}) + {p} else (Leaves(t) - {x}) - {p}
  {
    DetachDefined(t, path, x);
  }

  /** No slot is held for two prefixes. */
  ghost predicate Distinct(t: Tree, path: Paths) {
    forall x, d: nat, v, y, e: nat {:trigger Holds(t, path, x, d, v), Holds(t, path, y, e, v)} ::
      Holds(t, path, x, d, v) && Holds(t, path, y, e, v) ==> d == e && Agree(x, y, d)
  }

  ghost predicate NoRepeats(s: seq<int>) {
    forall i, j :: 0 <= i < j < |s| ==> s[i] != s[j]
  }

  /** Slot `v` was held for a prefix that is no longer stored. */
  ghost predicate Gone(t: Tree, path: Paths, u: Tree, w: Paths, v: int) {
    exists x, d: nat :: Holds(t, path, x, d, v) && !Stored(u, w, x, d)
  }

  /** Node `n` is as it was, up to its children. */
  ghost predicate NodeKept(t: Tree, path: Paths, u: Tree, w: Paths, n: nat) {
    && n in t && n in u && n in path && n in w && w[n] == path[n]
    && u[n].key == t[n].key && u[n].value == t[n].value && u[n].lock == t[n].lock
  }

  ghost predicate Shrunk(t: Tree, path: Paths, u: Tree, w: Paths, freed: seq<int>) {
    && (forall n {:trigger u[n]} :: n in u ==> NodeKept(t, path, u, w, n))
    && (forall n {:trigger t[n]} :: n in t && t[n].lock > 0 ==> n in u)
    && (forall x, d: nat, v {:trigger Holds(u, w, x, d, v)} :: Holds(u, w, x, d, v) ==> Holds(t, path, x, d, v))
    && (forall x, d: nat, v {:trigger Holds(t, path, x, d, v)} ::
          Holds(t, path, x, d, v) ==> Holds(u, w, x, d, v) || v in freed)
    && (forall v :: v in freed ==> Gone(t, path, u, w, v))
  }

  /** A prefix that ends in a locked node keeps its slot. */
  lemma LockedStays(t: Tree, path: Paths, u: Tree, w: Paths, freed: seq<int>, n: nat, x: Key, d: nat, v: int)
    requires Shrunk(t, path, u, w, freed) && HoldsAt(t, path, n, x, d, v) && t[n].lock > 0
    ensures HoldsAt(u, w, n, x, d, v)
  {
  }

  /** With distinct slots, none of the freed ones is still in the tree. */
  lemma FreedIsOut(t: Tree, path: Paths, u: Tree, w: Paths, freed: seq<int>, y: Key, e: nat, v: int)
    requires Shrunk(t, path, u, w, freed) && Distinct(t, path) && Shape(u, w) && Holds(u, w, y, e, v)
    ensures v !in freed
  {
    if v in freed {
      var x, d: nat :| Holds(t, path, x, d, v) && !Stored(u, w, x, d);
      assert d == e && Agree(x, y, d);
      var n :| HoldsAt(u, w, n, y, e, v);
      assert Covers(u, w, n, x, d);
    }
  }

  lemma LeafValue(t: Tree, path: Paths, x: nat, i: nat)
    requires CanDetach(t, path, x) && i < |t[x].value|
    ensures Base(t, path, x) >= 0 && HoldsAt(t, path, x, path[x], Base(t, path, x) + 1 + i, t[x].value[i])
  {
    assert NodeOk(t, path, x);
  }

  lemma ShrunkMore(t: Tree, path: Paths, u: Tree, w: Paths, x: nat, freed: seq<int>)
    requires Shrunk(t, path, u, w, freed) && CanDetach(u, w, x) && u[x].lock == 0
    requires u[x].parent in u && u[x].key != []
    ensures Shrunk(t, path, Detach(u, x), w - {x}, freed + u[x].value)
  {
    var u', w', more := Detach(u, x), w - {x}, freed + u[x].value;
    DetachDefined(u, w, x);
    forall y, d: nat, v ensures Holds(u', w', y, d, v) <==> Holds(u, w, y, d, v) && !Covers(u, w, x, y, d) {
      DetachHolds(u, w, x, y, d, v);
    }
    forall y, d: nat, v | Holds(t, path, y, d, v) ensures Holds(u', w', y, d, v) || v in more {
      if Holds(u, w, y, d, v) && Covers(u, w, x, y, d) {
        var n :| HoldsAt(u, w, n, y, d, v);
        OneCover(u, w, y, d, n, x);
      }
    }
    forall v | v in more ensures Gone(t, path, u', w', v) { GoneStays(t, path, u, w, x, freed, v); }
  }

  lemma NotStoredAfter(u: Tree, w: Paths, x: nat, y: Key, d: nat)
    requires CanDetach(u, w, x) && u[x].parent in u && u[x].key != []
    requires Covers(u, w, x, y, d) || !Stored(u, w, y, d)
    ensures !Stored(Detach(u, x), w - {x}, y, d)
  {
    DetachDefined(u, w, x);
    var u', w' := Detach(u, x), w - {x};
    forall n ensures !Covers(u', w', n, y, d) {
      if Covers(u', w', n, y, d) {
        assert Covers(u, w, n, y, d);
        if Covers(u, w, x, y, d) { OneCover(u, w, y, d, n, x); }
      }
    }
  }

  lemma GoneStays(t: Tree, path: Paths, u: Tree, w: Paths, x: nat, freed: seq<int>, v: int)
    requires Shrunk(t, path, u, w, freed) && CanDetach(u, w, x) && u[x].parent in u && u[x].key != []
    requires v in freed + u[x].value
    ensures Gone(t, path, Detach(u, x), w - {x}, v)
  {
    if v in freed {
      var y, d: nat :| Holds(t, path, y, d, v) && !Stored(u, w, y, d);
      NotStoredAfter(u, w, x, y, d);
    } else {
      var i :| 0 <= i < |u[x].value| && u[x].value[i] == v;
      LeafValue(u, w, x, i);
      var y, d := w[x], Base(u, w, x) + 1 + i;
      assert Holds(u, w, y, d, v);
      NotStoredAfter(u, w, x, y, d);
    }
  }

  /** What eviction does: it shrinks the tree, and with distinct slots it frees none twice. */
  ghost predicate Evicted(t: Tree, path: Paths, u: Tree, w: Paths, freed: seq<int>) {
    Shrunk(t, path, u, w, freed) && (Distinct(t, path) ==> NoRepeats(freed))
  }

  lemma NothingEvicted(t: Tree, path: Paths)
    requires Shape(t, path)
    ensures Evicted(t, path, t, path, [])
  {
  }

  lemma EvictedMore(t: Tree, path: Paths, u: Tree, w: Paths, x: nat, freed: seq<int>)
    requires Evicted(t, path, u, w, freed) && CanDetach(u, w, x) && u[x].lock == 0
    requires u[x].parent in u && u[x].key != []
    ensures Evicted(t, path, Detach(u, x), w - {x}, freed + u[x].value)
  {
    ShrunkMore(t, path, u, w, x, freed);
    if Distinct(t, path) { StillNoRepeats(t, path, u, w, x, freed); }
  }

  lemma StillNoRepeats(t: Tree, path: Paths, u: Tree, w: Paths, x: nat, freed: seq<int>)
    requires Shrunk(t, path, u, w, freed) && Distinct(t, path) && NoRepeats(freed) && CanDetach(u, w, x)
    ensures NoRepeats(freed + u[x].value)
  {
    var value := u[x].value;
    forall i, j | 0 <= i < j < |value| ensures value[i] != value[j] {
      LeafValue(u, w, x, i);
      LeafValue(u, w, x, j);
      assert Holds(u, w, w[x], Base(u, w, x) + 1 + i, value[i]) && Holds(u, w, w[x], Base(u, w, x) + 1 + j, value[j]);
    }
    forall i, j | 0 <= i < |freed| && 0 <= j < |value| ensures freed[i] != value[j] {
      LeafValue(u, w, x, j);
      FreedIsOut(t, path, u, w, freed, w[x], Base(u, w, x) + 1 + j, value[j]);
    }
  }

  // ---------- climbing ----------

  /** The locks on the way from `node` up to depth `d` have changed by `step`, and nothing else has. */
  ghost predicate Climbed(t: Tree, u: Tree, path: Paths, node: nat, d: nat, step: int) {
    && Shape(t, path) && node in t && BelowRoot(u) && SameButLocks(t, u)
    && forall n {:trigger u[n]} :: n in t ==>
         u[n].lock == t[n].lock + if Passed(path, n, node, d) then step else 0
  }

  ghost predicate BelowRoot(u: Tree) {
    ROOT in u && u[ROOT].lock == 1
  }

  lemma ClimbedShape(t: Tree, u: Tree, path: Paths, node: nat, d: nat, step: int)
    requires Climbed(t, u, path, node, d, step)
    ensures Shape(u, path)
  {
    ShapeIgnoresLocks(t, u, path);
  }

  /** What changing one lock does to the sizes. */
  lemma Relocked(t: Tree, next: nat, cur: nat, lock: nat)
    requires BelowNext(t, next) && cur in t && cur != ROOT
    ensures var u := t[cur := t[cur].(lock := lock)];
      && BelowNext(u, next)
      && Size(u, next, false) == Size(t, next, false) - Weight(t, cur, false) + Weight(u, cur, false)
      && Size(u, next, true) == Size(t, next, true) - Weight(t, cur, true) + Weight(u, cur, true)
      && Leaves(u) == if IsLeaf(u, cur) then Leaves(t) + {cur} else Leaves(t) - {cur}
  {
    var u := t[cur := t[cur].(lock := lock)];
    SizeChanges(t, u, next, false, cur);
    SizeChanges(t, u, next, true, cur);
  }

  lemma ClimbOne(t: Tree, mid: Tree, u: Tree, path: Paths, node: nat, cur: nat, step: int)
    requires cur in path && Climbed(t, mid, path, node, |path[cur]|, step) && cur in t && cur != ROOT
    requires Below(path, node, path[cur]) && mid[cur].lock + step >= 0
    requires u == mid[cur := mid[cur].(lock := mid[cur].lock + step)]
    ensures t[cur].parent in t && |path[t[cur].parent]| < |path[cur]| && Below(path, node, path[t[cur].parent])
    ensures Climbed(t, u, path, node, |path[t[cur].parent]|, step)
  {
    OnePassed(t, path, cur, node, cur);
    forall n | n in t
      ensures u[n].lock == t[n].lock + if Passed(path, n, node, |path[t[cur].parent]|) then step else 0
    {
      OnePassed(t, path, n, node, cur);
    }
  }

  lemma ClimbedLocks(t: Tree, u: Tree, path: Paths, holds: seq<nat>, node: nat)
    requires Climbed(t, u, path, node, 0, 1) && LockInv(t, path, holds)
    ensures Sound(u, path, holds + [node])
  {
    ClimbedShape(t, u, path, node, 0, 1);
    forall n | n in u && n != ROOT ensures LockOk(u, path, holds + [node], n) {
      assert LockOk(t, path, holds, n);
      HoldersPush(path, holds, node, path[n]);
      assert NodeOk(t, path, n);
    }
  }

  lemma ReleasedLocks(t: Tree, u: Tree, path: Paths, holds: seq<nat>, i: nat)
    requires i < |holds| && Climbed(t, u, path, holds[i], 0, -1) && LockInv(t, path, holds)
    ensures Sound(u, path, RemoveAt(holds, i))
  {
    ClimbedShape(t, u, path, holds[i], 0, -1);
    var rest := RemoveAt(holds, i);
    forall n | n in u && n != ROOT ensures LockOk(u, path, rest, n) {
      assert LockOk(t, path, holds, n);
      HoldersPop(path, holds, i, path[n]);
      assert NodeOk(t, path, n);
    }
    forall j | 0 <= j < |rest| ensures rest[j] in u { assert rest[j] == holds[if j < i then j else j + 1]; }
  }

  lemma StillLocked(t: Tree, u: Tree, path: Paths, holds: seq<nat>, i: nat, cur: nat)
    requires LockInv(t, path, holds) && i < |holds| && cur in t && cur in path && cur != ROOT
    requires Climbed(t, u, path, holds[i], |path[cur]|, -1) && Below(path, holds[i], path[cur])
    ensures cur in u && u[cur].lock > 0
  {
    AboveHeldIsLocked(t, path, holds, i, cur);
    assert u[cur].lock == t[cur].lock;
  }

  lemma AboveHeldIsLocked(t: Tree, path: Paths, holds: seq<nat>, i: nat, n: nat)
    requires LockInv(t, path, holds) && i < |holds| && n in t && n != ROOT && Below(path, holds[i], path[n])
    ensures t[n].lock > 0
  {
    assert LockOk(t, path, holds, n);
    HoldersNone(path, holds, path[n], |holds|);
  }

  /** `value` lists the slots of the first `|value|` prefixes of `key`. */
  ghost predicate Reads(t: Tree, path: Paths, key: Key, value: seq<int>) {
    forall j :: 0 <= j < |value| ==> Holds(t, path, key, j + 1, value[j])
  }

  lemma ReadsOn(t: Tree, path: Paths, u: Tree, w: Paths, key: Key, value: seq<int>)
    requires Reads(t, path, key, value) && SameContent(t, path, u, w)
    ensures Reads(u, w, key, value)
  {
    forall j | 0 <= j < |value| ensures Holds(u, w, key, j + 1, value[j]) {
      assert Holds(t, path, key, j + 1, value[j]);
    }
  }

  lemma ReadsMore(t: Tree, path: Paths, key: Key, value: seq<int>, c: nat, e: nat)
    requires Shape(t, path) && Reads(t, path, key, value) && c != ROOT
    requires At(t, path, c, key, e) && Base(t, path, c) == |value|
    ensures |value + t[c].value| == e && Reads(t, path, key, value + t[c].value)
  {
    assert NodeOk(t, path, c);
    var all := value + t[c].value;
    forall j | 0 <= j < |all| ensures Holds(t, path, key, j + 1, all[j]) {
      if j >= |value| { assert HoldsAt(t, path, c, key, j + 1, t[c].value[j - |value|]); }
    }
  }

  /** After storing `key` with a stored prefix of length `prefix`: the old content, and slots of `value` behind it. */
  ghost predicate Extended(
      t: Tree, path: Paths, u: Tree, w: Paths, key: Key, value: seq<int>, prefix: nat)
    requires |value| == |key|
  {
    forall x, d: nat, v {:trigger Holds(u, w, x, d, v)} {:trigger Holds(t, path, x, d, v)} ::
      Holds(u, w, x, d, v) <==>
        Holds(t, path, x, d, v) || (prefix < d <= |key| && Agree(key, x, d) && value[d - 1] == v)
  }

  lemma LeafExtends(
      t: Tree, path: Paths, mid: Tree, midPath: Paths, u: Tree, w: Paths, key: Key, value: seq<int>, cur: nat, prefix: nat)
    requires SameContent(t, path, mid, midPath) && |value| == |key| && prefix < |key| && At(mid, midPath, cur, key, prefix)
    requires exists s :: && CanAttach(mid, midPath, cur, s, key[prefix..], value[prefix..])
                         && u == Attach(mid, cur, s, key[prefix..], value[prefix..])
                         && w == AttachPaths(midPath, cur, s, key[prefix..])
    ensures Extended(t, path, u, w, key, value, prefix)
  {
    var rest, slots := key[prefix..], value[prefix..];
    var s :| && CanAttach(mid, midPath, cur, s, rest, slots)
             && u == Attach(mid, cur, s, rest, slots) && w == AttachPaths(midPath, cur, s, rest);
    assert w[s] == key;
    forall x, d: nat, v
      ensures Holds(u, w, x, d, v) <==>
                Holds(t, path, x, d, v) || (prefix < d <= |key| && Agree(key, x, d) && value[d - 1] == v)
    {
      AttachHolds(mid, midPath, cur, s, rest, slots, x, d, v);
      assert Holds(t, path, x, d, v) <==> Holds(mid, midPath, x, d, v);
    }
  }

  lemma NothingToAdd(t: Tree, path: Paths, u: Tree, w: Paths, key: Key, value: seq<int>, prefix: nat)
    requires SameContent(t, path, u, w) && |value| == |key| == prefix
    ensures Extended(t, path, u, w, key, value, prefix)
  {
    forall x, d: nat, v ensures Holds(u, w, x, d, v) <==> Holds(t, path, x, d, v) {
      assert Holds(t, path, x, d, v) <==> Holds(u, w, x, d, v);
    }
  }

  lemma AttachKeepsSound(t: Tree, path: Paths, holds: seq<nat>, n: nat, s: nat, key: Key, value: seq<int>)
    requires CanAttach(t, path, n, s, key, value) && Sound(t, path, holds)
    ensures Sound(Attach(t, n, s, key, value), AttachPaths(path, n, s, key), holds)
  {
    AttachKeepsShape(t, path, n, s, key, value);
    AttachKeepsLocks(t, path, holds, n, s, key, value);
  }

  lemma AttachKeepsCounts(t: Tree, path: Paths, n: nat, s: nat, key: Key, value: seq<int>)
    requires CanAttach(t, path, n, s, key, value) && BelowNext(t, s)
    ensures var u := Attach(t, n, s, key, value);
      && Counted(u, s + 1, Size(t, s, false) + |key|, Size(t, s, true), Leaves(t) - {n} + {s})
      && !IsLeaf(u, n) && IsLeaf(u, s)
  {
    AttachAddsSize(t, path, n, s, key, value);
    var u := Attach(t, n, s, key, value);
    assert key[0] in u[n].children;
  }

  lemma SplitKeepsLeaves(t: Tree, path: Paths, c: nat, k: nat, s: nat)
    requires CanSplit(t, path, c, k, s)
    ensures t[c].parent in t && |t[c].value| == |t[c].key|
    ensures Leaves(Split(t, c, k, s)) == Leaves(t) && Split(t, c, k, s)[ROOT].lock == t[ROOT].lock
  {
    SplitDefined(t, path, c, k, s);
    assert NodeOk(t, path, c);
    var u := Split(t, c, k, s);
    assert t[t[c].parent].children != map[] && u[t[c].parent].children != map[];
    forall n ensures n in Leaves(u) <==> n in Leaves(t) {
      if n == s { assert t[c].key[k] in u[s].children; }
    }
  }
}
