/**
 Requests that share the radix cache, and who owns each KV slot: the allocator, the tree for one prefix, or one request
 at one position. A request carries its whole pages as letters, the slots of its tokens, how many leading slots
 are the tree's, and the node it holds.
 */
module RadixRequests {
  import opened Arithmetic
  import opened Wrappers
  import opened Sums
  import opened RadixTree
  import opened RadixUpdates
  import opened RadixLocks
  import opened Radix
  import opened RadixKeys

  datatype Req = Req(key: Key, kv: seq<int>, kept: nat, node: nat)

  type Reqs = map<nat, Req>

  // ---------- ownership ----------

  ghost predicate InTree(t: Tree, path: Paths, v: int) {
    exists x, d: nat :: Holds(t, path, x, d, v)
  }

  ghost function TreeSlots(t: Tree, path: Paths): iset<int> {
    iset v | InTree(t, path, v)
  }

  /** Position `i` of request `r` is its own. */
  ghost predicate Owns(reqs: Reqs, r: nat, i: nat) {
    r in reqs && reqs[r].kept <= i < |reqs[r].kv|
  }

  ghost function OwnSlots(reqs: Reqs): iset<int> {
    iset r: nat, i: nat | Owns(reqs, r, i) :: reqs[r].kv[i]
  }

  /** The request holds the node of its first `kept` letters, and its slots for them are the tree's. */
  ghost predicate ReqOk(t: Tree, path: Paths, q: Req) {
    && q.kept <= |q.key| <= |q.kv| && At(t, path, q.node, q.key, q.kept)
    && forall j :: 0 <= j < q.kept ==> Holds(t, path, q.key, j + 1, q.kv[j])
  }

  /** No slot is a request's twice. */
  ghost predicate OwnOnce(reqs: Reqs) {
    forall r, i: nat, s, j: nat {:trigger Owns(reqs, r, i), Owns(reqs, s, j)} ::
      Owns(reqs, r, i) && Owns(reqs, s, j) && reqs[r].kv[i] == reqs[s].kv[j] ==> r == s && i == j
  }

  /** Every slot is in exactly one place. */
  ghost predicate Partition(all: iset<int>, free: iset<int>, tree: iset<int>, own: iset<int>) {
    && (forall v :: v in all <==> v in free || v in tree || v in own)
    && (forall v :: v in free ==> v !in tree && v !in own)
    && (forall v :: v in tree ==> v !in own)
  }

  ghost predicate SlotInv(t: Tree, path: Paths, free: iset<int>, reqs: Reqs, all: iset<int>) {
    && Distinct(t, path) && OwnOnce(reqs) && Partition(all, free, TreeSlots(t, path), OwnSlots(reqs))
    && forall r {:trigger ReqOk(t, path, reqs[r])} :: r in reqs ==> ReqOk(t, path, reqs[r])
  }

  // ---------- what the cache operations do to it ----------

  lemma SameTreeSlots(t: Tree, path: Paths, u: Tree, w: Paths)
    requires SameContent(t, path, u, w)
    ensures TreeSlots(t, path) == TreeSlots(u, w) && (Distinct(t, path) ==> Distinct(u, w))
  {
    forall v ensures v in TreeSlots(t, path) <==> v in TreeSlots(u, w) {
      if x, d: nat :| Holds(t, path, x, d, v) { assert Holds(u, w, x, d, v); }
      if x, d: nat :| Holds(u, w, x, d, v) { assert Holds(t, path, x, d, v); }
    }
  }

  /** A match or a change of locks leaves ownership as it is. */
  lemma SameContentKeeps(t: Tree, path: Paths, u: Tree, w: Paths, free: iset<int>, reqs: Reqs, all: iset<int>)
    requires SlotInv(t, path, free, reqs, all) && SameContent(t, path, u, w)
    requires forall n :: n in path ==> n in u && n in w && w[n] == path[n]
    ensures SlotInv(u, w, free, reqs, all)
  {
    SameTreeSlots(t, path, u, w);
    forall r | r in reqs ensures ReqOk(u, w, reqs[r]) {
      var q := reqs[r];
      assert ReqOk(t, path, q);
      forall j | 0 <= j < q.kept ensures Holds(u, w, q.key, j + 1, q.kv[j]) {
        assert Holds(t, path, q.key, j + 1, q.kv[j]);
      }
    }
  }

  /** The kept prefix of a request is stored, so an insertion of its key finds at least that much. */
  lemma KeptIsStored(t: Tree, path: Paths, q: Req, prefix: nat)
    requires Shape(t, path) && ReqOk(t, path, q) && LongestIs(t, path, q.key, prefix)
    ensures q.kept <= prefix
  {
    if q.kept > 0 {
      assert Holds(t, path, q.key, q.kept - 1 + 1, q.kv[q.kept - 1]);
      StoredIsHeld(t, path, q.key, q.kept);
    }
  }

  /** The slots at positions `a` to `b`. */
  ghost function Range(kv: seq<int>, a: nat, b: nat): iset<int> {
    iset i: nat | a <= i < b && i < |kv| :: kv[i]
  }

  lemma InsertTakes(t: Tree, path: Paths, u: Tree, w: Paths, q: Req, prefix: nat)
    requires q.kept <= prefix <= |q.key| <= |q.kv| && Extended(t, path, u, w, q.key, q.kv[..|q.key|], prefix)
    ensures TreeSlots(u, w) == TreeSlots(t, path) + Range(q.kv, prefix, |q.key|)
  {
    forall v ensures v in TreeSlots(u, w) <==> v in TreeSlots(t, path) || v in Range(q.kv, prefix, |q.key|) {
      if x, d: nat :| Holds(u, w, x, d, v) {
        if !Holds(t, path, x, d, v) { assert q.kv[d - 1] == v; }
      }
      if x, d: nat :| Holds(t, path, x, d, v) { assert Holds(u, w, x, d, v); }
      if i: nat :| prefix <= i < |q.key| && q.kv[i] == v { assert Holds(u, w, q.key, i + 1, v); }
    }
  }

  lemma InsertKeepsDistinct(t: Tree, path: Paths, u: Tree, w: Paths, reqs: Reqs, r: nat, prefix: nat)
    requires r in reqs && Distinct(t, path) && OwnOnce(reqs)
    requires var q := reqs[r];
      && q.kept <= prefix <= |q.key| <= |q.kv| && Extended(t, path, u, w, q.key, q.kv[..|q.key|], prefix)
      && forall i :: prefix <= i < |q.key| ==> !InTree(t, path, q.kv[i])
    ensures Distinct(u, w)
  {
    forall x, d: nat, v, y, e: nat | Holds(u, w, x, d, v) && Holds(u, w, y, e, v) ensures d == e && Agree(x, y, d) {
      OldOrNew(t, path, u, w, reqs, r, prefix, x, d, v);
      OldOrNew(t, path, u, w, reqs, r, prefix, y, e, v);
    }
  }

  /** A slot was in the tree all the time, or it came from the request. */
  lemma OldOrNew(t: Tree, path: Paths, u: Tree, w: Paths, reqs: Reqs, r: nat, prefix: nat, x: Key, d: nat, v: int)
    requires r in reqs && Holds(u, w, x, d, v)
    requires var q := reqs[r];
      && q.kept <= prefix <= |q.key| <= |q.kv| && Extended(t, path, u, w, q.key, q.kv[..|q.key|], prefix)
      && forall i :: prefix <= i < |q.key| ==> !InTree(t, path, q.kv[i])
    ensures if InTree(t, path, v) then Holds(t, path, x, d, v)
            else prefix < d <= |reqs[r].key| && Agree(reqs[r].key, x, d) && Owns(reqs, r, d - 1) && reqs[r].kv[d - 1] == v
  {
    if Holds(t, path, x, d, v) { assert InTree(t, path, v); }
  }

  lemma OthersStay(t: Tree, path: Paths, u: Tree, w: Paths, reqs: Reqs, s: nat, key: Key, value: seq<int>, prefix: nat)
    requires s in reqs && ReqOk(t, path, reqs[s]) && |value| == |key| && Extended(t, path, u, w, key, value, prefix)
    requires forall n :: n in path ==> n in u && n in w && w[n] == path[n]
    ensures ReqOk(u, w, reqs[s])
  {
    var q := reqs[s];
    forall j | 0 <= j < q.kept ensures Holds(u, w, q.key, j + 1, q.kv[j]) {
      assert Holds(t, path, q.key, j + 1, q.kv[j]);
    }
  }

  /** Slots of requests pass to the allocator and to the tree. */
  lemma PartitionMoves(
      all: iset<int>, free: iset<int>, tree: iset<int>, own: iset<int>, given: iset<int>, taken: iset<int>)
    requires Partition(all, free, tree, own) && given <= own && taken <= own && given !! taken
    ensures Partition(all, free + given, tree + taken, own - given - taken)
  {
  }

  // ---------- the end of a request ----------

  lemma FinishedOwn(reqs: Reqs, r: nat)
    requires r in reqs && OwnOnce(reqs)
    ensures OwnOnce(reqs - {r}) && Range(reqs[r].kv, reqs[r].kept, |reqs[r].kv|) <= OwnSlots(reqs)
    ensures OwnSlots(reqs - {r}) == OwnSlots(reqs) - Range(reqs[r].kv, reqs[r].kept, |reqs[r].kv|)
  {
    var q, rest := reqs[r], reqs - {r};
    forall i: nat | q.kept <= i < |q.kv| ensures Owns(reqs, r, i) { }
    forall s: nat, i: nat ensures Owns(rest, s, i) <==> Owns(reqs, s, i) && s != r { }
    forall s: nat, i: nat, j: nat | Owns(rest, s, i) && q.kept <= j < |q.kv| ensures rest[s].kv[i] != q.kv[j] {
      assert Owns(reqs, s, i) && Owns(reqs, r, j);
    }
    forall v ensures v in OwnSlots(rest) <==> v in OwnSlots(reqs) && v !in Range(q.kv, q.kept, |q.kv|) {
      if s, i: nat :| Owns(reqs, s, i) && reqs[s].kv[i] == v {
        if s != r { assert Owns(rest, s, i); }
      }
    }
  }

  /** A finished request: the tree takes what it did not have, and the allocator gets the rest. */
  lemma FinishKeeps(
      t: Tree, path: Paths, u: Tree, w: Paths, free: iset<int>, reqs: Reqs, all: iset<int>, r: nat, prefix: nat)
    requires SlotInv(t, path, free, reqs, all) && r in reqs && reqs[r].kept <= prefix <= |reqs[r].key| <= |reqs[r].kv|
    requires Extended(t, path, u, w, reqs[r].key, reqs[r].kv[..|reqs[r].key|], prefix)
    requires forall n :: n in path ==> n in u && n in w && w[n] == path[n]
    ensures var q := reqs[r];
      SlotInv(u, w, free + Range(q.kv, q.kept, prefix) + Range(q.kv, |q.key|, |q.kv|), reqs - {r}, all)
  {
    var q := reqs[r];
    var taken := Range(q.kv, prefix, |q.key|);
    var given := Range(q.kv, q.kept, prefix) + Range(q.kv, |q.key|, |q.kv|);
    FinishedOwn(reqs, r);
    PiecesOf(reqs, r, prefix);
    InsertTakes(t, path, u, w, q, prefix);
    NotInTree(t, path, free, reqs, all, r);
    InsertKeepsDistinct(t, path, u, w, reqs, r, prefix);
    PartitionMoves(all, free, TreeSlots(t, path), OwnSlots(reqs), given, taken);
    assert OwnSlots(reqs) - given - taken == OwnSlots(reqs - {r});
    assert free + given == free + Range(q.kv, q.kept, prefix) + Range(q.kv, |q.key|, |q.kv|);
    forall s | s in reqs - {r} ensures ReqOk(u, w, (reqs - {r})[s]) {
      assert ReqOk(t, path, reqs[s]);
      OthersStay(t, path, u, w, reqs, s, q.key, q.kv[..|q.key|], prefix);
    }
  }

  lemma NotInTree(t: Tree, path: Paths, free: iset<int>, reqs: Reqs, all: iset<int>, r: nat)
    requires SlotInv(t, path, free, reqs, all) && r in reqs
    ensures forall i :: reqs[r].kept <= i < |reqs[r].kv| ==> !InTree(t, path, reqs[r].kv[i])
  {
    forall i | reqs[r].kept <= i < |reqs[r].kv| ensures !InTree(t, path, reqs[r].kv[i]) {
      assert Owns(reqs, r, i);
      assert reqs[r].kv[i] in OwnSlots(reqs);
    }
  }

  /** The three parts of a request's own slots do not overlap. */
  lemma PiecesOf(reqs: Reqs, r: nat, prefix: nat)
    requires r in reqs && OwnOnce(reqs) && reqs[r].kept <= prefix <= |reqs[r].key| <= |reqs[r].kv|
    ensures var q := reqs[r];
      && Range(q.kv, q.kept, prefix) + Range(q.kv, prefix, |q.key|) + Range(q.kv, |q.key|, |q.kv|) ==
           Range(q.kv, q.kept, |q.kv|)
      && Range(q.kv, q.kept, prefix) !! Range(q.kv, prefix, |q.key|)
      && Range(q.kv, |q.key|, |q.kv|) !! Range(q.kv, prefix, |q.key|)
      && Range(q.kv, |q.key|, |q.kv|) !! Range(q.kv, q.kept, prefix)
      && Range(q.kv, q.kept, |q.kv|) <= OwnSlots(reqs)
  {
    var q := reqs[r];
    forall i: nat | q.kept <= i < |q.kv| ensures Owns(reqs, r, i) { }
    forall i: nat, j: nat | q.kept <= i < j < |q.kv| ensures q.kv[i] != q.kv[j] {
      assert Owns(reqs, r, i) && Owns(reqs, r, j);
    }
  }

  /** A finished request that is not inserted: all its own slots go back. */
  lemma DropKeeps(t: Tree, path: Paths, free: iset<int>, reqs: Reqs, all: iset<int>, r: nat)
    requires SlotInv(t, path, free, reqs, all) && r in reqs
    ensures SlotInv(t, path, free + Range(reqs[r].kv, reqs[r].kept, |reqs[r].kv|), reqs - {r}, all)
  {
    var q := reqs[r];
    var given := Range(q.kv, q.kept, |q.kv|);
    FinishedOwn(reqs, r);
    PartitionMoves(all, free, TreeSlots(t, path), OwnSlots(reqs), given, iset{});
    assert OwnSlots(reqs) - given - iset{} == OwnSlots(reqs - {r}) && TreeSlots(t, path) + iset{} == TreeSlots(t, path);
    forall s | s in reqs - {r} ensures ReqOk(t, path, (reqs - {r})[s]) { assert ReqOk(t, path, reqs[s]); }
  }

  // ---------- a request that goes on ----------

  /** What becomes of it: the tree's slots for all its letters, and its own behind them. */
  ghost function Settled(q: Req, value: seq<int>, node: nat): Req
    requires |q.key| <= |q.kv|
  {
    Req(q.key, value + q.kv[|q.key|..], |q.key|, node)
  }

  lemma SettledOwn(reqs: Reqs, r: nat, value: seq<int>, node: nat)
    requires r in reqs && OwnOnce(reqs) && reqs[r].kept <= |reqs[r].key| <= |reqs[r].kv| && |value| == |reqs[r].key|
    ensures var q, next := reqs[r], reqs[r := Settled(reqs[r], value, node)];
      && OwnOnce(next)
      && OwnSlots(next) == OwnSlots(reqs) - Range(q.kv, q.kept, |q.key|)
  {
    var q, next := reqs[r], reqs[r := Settled(reqs[r], value, node)];
    forall s: nat, i: nat ensures Owns(next, s, i) <==> Owns(reqs, s, i) && (s == r ==> i >= |q.key|) { }
    forall s: nat, i: nat | Owns(next, s, i) ensures next[s].kv[i] == reqs[s].kv[i] { }
    forall s: nat, i: nat, j: nat | Owns(next, s, i) && q.kept <= j < |q.key| ensures next[s].kv[i] != q.kv[j] {
      assert Owns(reqs, s, i) && Owns(reqs, r, j);
    }
    forall v ensures v in OwnSlots(next) <==> v in OwnSlots(reqs) && v !in Range(q.kv, q.kept, |q.key|) {
      if s, i: nat :| Owns(reqs, s, i) && reqs[s].kv[i] == v {
        if s != r || i >= |q.key| { assert Owns(next, s, i) && next[s].kv[i] == v; }
      }
      if s, i: nat :| Owns(next, s, i) && next[s].kv[i] == v { assert Owns(reqs, s, i) && reqs[s].kv[i] == v; }
    }
    forall a, i: nat, b, j: nat | Owns(next, a, i) && Owns(next, b, j) && next[a].kv[i] == next[b].kv[j]
      ensures a == b && i == j
    {
      assert Owns(reqs, a, i) && Owns(reqs, b, j);
    }
  }

  lemma SettleKeeps(
      t: Tree, path: Paths, u: Tree, w: Paths, free: iset<int>, reqs: Reqs, all: iset<int>, r: nat, prefix: nat,
      value: seq<int>, node: nat)
    requires SlotInv(t, path, free, reqs, all) && r in reqs && reqs[r].kept <= prefix <= |reqs[r].key| <= |reqs[r].kv|
    requires Extended(t, path, u, w, reqs[r].key, reqs[r].kv[..|reqs[r].key|], prefix)
    requires forall n :: n in path ==> n in u && n in w && w[n] == path[n]
    requires |value| == |reqs[r].key| && Reads(u, w, reqs[r].key, value) && At(u, w, node, reqs[r].key, |value|)
    ensures SlotInv(u, w, free + Range(reqs[r].kv, reqs[r].kept, prefix), reqs[r := Settled(reqs[r], value, node)], all)
  {
    var q, next := reqs[r], reqs[r := Settled(reqs[r], value, node)];
    var given, taken := Range(q.kv, q.kept, prefix), Range(q.kv, prefix, |q.key|);
    SettledOwn(reqs, r, value, node);
    PiecesOf(reqs, r, prefix);
    InsertTakes(t, path, u, w, q, prefix);
    NotInTree(t, path, free, reqs, all, r);
    InsertKeepsDistinct(t, path, u, w, reqs, r, prefix);
    PartitionMoves(all, free, TreeSlots(t, path), OwnSlots(reqs), given, taken);
    assert given + taken == Range(q.kv, q.kept, |q.key|);
    assert OwnSlots(reqs) - given - taken == OwnSlots(next);
    forall s | s in next ensures ReqOk(u, w, next[s]) {
      if s != r {
        assert ReqOk(t, path, reqs[s]);
        OthersStay(t, path, u, w, reqs, s, q.key, q.kv[..|q.key|], prefix);
      } else {
        forall j | 0 <= j < |q.key| ensures Holds(u, w, q.key, j + 1, next[r].kv[j]) {
          assert Holds(u, w, q.key, j + 1, value[j]);
        }
      }
    }
  }

  lemma ExtendedThenSame(
      t: Tree, path: Paths, mid: Tree, midPath: Paths, u: Tree, w: Paths, key: Key, value: seq<int>, prefix: nat)
    requires |value| == |key| && Extended(t, path, mid, midPath, key, value, prefix) && SameContent(mid, midPath, u, w)
    ensures Extended(t, path, u, w, key, value, prefix)
  {
    forall x, d: nat, v ensures Holds(u, w, x, d, v) <==> Holds(mid, midPath, x, d, v) {
      assert Holds(mid, midPath, x, d, v) <==> Holds(u, w, x, d, v);
    }
  }

  // ---------- eviction ----------

  /** What a request relies on ends in locked nodes, so eviction leaves it alone. */
  lemma ReliedOnStays(
      t: Tree, path: Paths, u: Tree, w: Paths, freed: seq<int>, holds: seq<nat>, q: Req, j: nat)
    requires Shape(t, path) && LockInv(t, path, holds) && Shrunk(t, path, u, w, freed)
    requires ReqOk(t, path, q) && q.node in holds && j < q.kept
    ensures Holds(u, w, q.key, j + 1, q.kv[j])
  {
    assert q.node != ROOT && NodeOk(t, path, q.node);
    assert Holds(t, path, q.key, j + 1, q.kv[j]);
    var n :| HoldsAt(t, path, n, q.key, j + 1, q.kv[j]);
    var m := ShorterStored(t, path, q.key, q.kept, q.node, j + 1);
    OneCover(t, path, q.key, j + 1, n, m);
    var i :| 0 <= i < |holds| && holds[i] == q.node;
    AboveHeldIsLocked(t, path, holds, i, n);
    LockedStays(t, path, u, w, freed, n, q.key, j + 1, q.kv[j]);
  }

  lemma EvictSlots(t: Tree, path: Paths, u: Tree, w: Paths, freed: seq<int>)
    requires Shrunk(t, path, u, w, freed) && Distinct(t, path) && Shape(u, w)
    ensures TreeSlots(u, w) == TreeSlots(t, path) - Range(freed, 0, |freed|) && Range(freed, 0, |freed|) <= TreeSlots(t, path)
    ensures Distinct(u, w)
  {
    forall v ensures v in Range(freed, 0, |freed|) <==> v in freed { }
    forall v | v in freed ensures v in TreeSlots(t, path) {
      assert Gone(t, path, u, w, v);
      var x, d: nat :| Holds(t, path, x, d, v) && !Stored(u, w, x, d);
    }
    forall v ensures v in TreeSlots(u, w) <==> v in TreeSlots(t, path) && v !in freed {
      if x, d: nat :| Holds(u, w, x, d, v) {
        assert Holds(t, path, x, d, v);
        FreedIsOut(t, path, u, w, freed, x, d, v);
      }
      if x, d: nat :| Holds(t, path, x, d, v) {
        assert Holds(u, w, x, d, v) || v in freed;
      }
    }
  }

  lemma EvictKeeps(
      t: Tree, path: Paths, u: Tree, w: Paths, freed: seq<int>, holds: seq<nat>, free: iset<int>, reqs: Reqs,
      all: iset<int>)
    requires Sound(t, path, holds) && Shape(u, w) && Shrunk(t, path, u, w, freed) && SlotInv(t, path, free, reqs, all)
    requires forall r :: r in reqs ==> reqs[r].node in holds
    ensures SlotInv(u, w, free + Range(freed, 0, |freed|), reqs, all)
  {
    EvictSlots(t, path, u, w, freed);
    forall r | r in reqs ensures ReqOk(u, w, reqs[r]) {
      var q := reqs[r];
      assert ReqOk(t, path, q);
      if q.node != ROOT { HeldIsLocked(t, path, holds, q.node); }
      assert t[q.node].lock > 0 && NodeKept(t, path, u, w, q.node);
      forall j: nat | j < q.kept ensures Holds(u, w, q.key, j + 1, q.kv[j]) {
        ReliedOnStays(t, path, u, w, freed, holds, q, j);
      }
    }
  }

  // ---------- the start of a request, and new slots for it ----------
  lemma StartKeeps(
      t: Tree, path: Paths, free: iset<int>, reqs: Reqs, all: iset<int>, r: nat, key: Key, value: seq<int>, node: nat)
    requires SlotInv(t, path, free, reqs, all) && r !in reqs && |value| <= |key|
    requires Reads(t, path, key, value) && At(t, path, node, key, |value|)
    ensures SlotInv(t, path, free, reqs[r := Req(key[..|value|], value, |value|, node)], all)
  {
    var q := Req(key[..|value|], value, |value|, node);
    var next := reqs[r := q];
    forall s: nat, i: nat ensures Owns(next, s, i) <==> Owns(reqs, s, i) { }
    forall v ensures v in OwnSlots(next) <==> v in OwnSlots(reqs) {
      if s, i: nat :| Owns(reqs, s, i) && reqs[s].kv[i] == v { assert Owns(next, s, i) && next[s].kv[i] == v; }
      if s, i: nat :| Owns(next, s, i) && next[s].kv[i] == v { assert Owns(reqs, s, i) && reqs[s].kv[i] == v; }
    }
    assert OwnSlots(next) == OwnSlots(reqs);
    forall s | s in next ensures ReqOk(t, path, next[s]) {
      if s != r {
        assert ReqOk(t, path, reqs[s]);
      } else {
        forall j | 0 <= j < |value| ensures Holds(t, path, q.key, j + 1, value[j]) {
          HoldsShorter(t, path, key, q.key, j + 1, value[j]);
        }
      }
    }
  }

  /** The request after it has got `slots` for the letters `more`. */
  ghost function Longer(q: Req, more: Key, slots: seq<int>): Req {
    q.(key := q.key + more, kv := q.kv + slots)
  }

  /** The positions the request owns now: those it owned, and the new ones. */
  lemma LongerOwns(reqs: Reqs, r: nat, more: Key, slots: seq<int>, s: nat, i: nat)
    requires r in reqs && reqs[r].kept <= |reqs[r].kv|
    ensures var next, n := reqs[r := Longer(reqs[r], more, slots)], |reqs[r].kv|;
      && (Owns(next, s, i) <==> Owns(reqs, s, i) || (s == r && n <= i < n + |slots|))
      && (Owns(reqs, s, i) ==> next[s].kv[i] == reqs[s].kv[i] && reqs[s].kv[i] in OwnSlots(reqs))
      && (s == r && n <= i < n + |slots| ==> next[s].kv[i] == slots[i - n] && slots[i - n] in Range(slots, 0, |slots|))
  {
  }

  lemma LongerOnce(reqs: Reqs, r: nat, more: Key, slots: seq<int>)
    requires r in reqs && OwnOnce(reqs) && reqs[r].kept <= |reqs[r].kv| && NoRepeats(slots)
    requires Range(slots, 0, |slots|) !! OwnSlots(reqs)
    ensures OwnOnce(reqs[r := Longer(reqs[r], more, slots)])
  {
    var next := reqs[r := Longer(reqs[r], more, slots)];
    forall a: nat, i: nat, b: nat, j: nat | Owns(next, a, i) && Owns(next, b, j) && next[a].kv[i] == next[b].kv[j]
      ensures a == b && i == j
    {
      LongerOwns(reqs, r, more, slots, a, i);
      LongerOwns(reqs, r, more, slots, b, j);
    }
  }

  lemma LongerOwn(reqs: Reqs, r: nat, more: Key, slots: seq<int>)
    requires r in reqs && reqs[r].kept <= |reqs[r].kv|
    ensures OwnSlots(reqs[r := Longer(reqs[r], more, slots)]) == OwnSlots(reqs) + Range(slots, 0, |slots|)
  {
    var next, n := reqs[r := Longer(reqs[r], more, slots)], |reqs[r].kv|;
    forall v ensures v in OwnSlots(next) <==> v in OwnSlots(reqs) || v in Range(slots, 0, |slots|) {
      if s: nat, i: nat :| Owns(reqs, s, i) && reqs[s].kv[i] == v { LongerOwns(reqs, r, more, slots, s, i); }
      if j: nat :| j < |slots| && slots[j] == v { LongerOwns(reqs, r, more, slots, r, n + j); }
      if s: nat, i: nat :| Owns(next, s, i) && next[s].kv[i] == v { LongerOwns(reqs, r, more, slots, s, i); }
    }
  }

  lemma LongerKeeps(
      t: Tree, path: Paths, free: iset<int>, reqs: Reqs, all: iset<int>, r: nat, more: Key, slots: seq<int>)
    requires SlotInv(t, path, free, reqs, all) && r in reqs && NoRepeats(slots) && Range(slots, 0, |slots|) <= free
    requires |reqs[r].key + more| <= |reqs[r].kv + slots|
    ensures SlotInv(t, path, free - Range(slots, 0, |slots|), reqs[r := Longer(reqs[r], more, slots)], all)
  {
    var q, next := reqs[r], reqs[r := Longer(reqs[r], more, slots)];
    assert ReqOk(t, path, q);
    forall v | v in Range(slots, 0, |slots|) ensures v !in OwnSlots(reqs) && v !in TreeSlots(t, path) {
      assert v in free;
    }
    LongerOnce(reqs, r, more, slots);
    LongerOwn(reqs, r, more, slots);
    forall s | s in next ensures ReqOk(t, path, next[s]) {
      if s != r {
        assert ReqOk(t, path, reqs[s]);
      } else {
        forall j | 0 <= j < q.kept ensures Holds(t, path, q.key + more, j + 1, (q.kv + slots)[j]) {
          assert Holds(t, path, q.key, j + 1, q.kv[j]);
          HoldsShorter(t, path, q.key, q.key + more, j + 1, q.kv[j]);
        }
      }
    }
  }

  // ---------- the object ----------

  /** Each request holds its node once: hold `i` is that of request `order[i]`. */
  ghost predicate Held(reqs: Reqs, order: seq<nat>, holds: seq<nat>) {
    && |order| == |holds|
    && (forall i :: 0 <= i < |order| ==> order[i] in reqs && reqs[order[i]].node == holds[i])
    && (forall i, j :: 0 <= i < j < |order| ==> order[i] != order[j])
    && (forall r :: r in reqs ==> r in order)
  }

  lemma ReleaseHeld(reqs: Reqs, order: seq<nat>, holds: seq<nat>, i: nat)
    requires Held(reqs, order, holds) && i < |order|
    ensures Held(reqs - {order[i]}, RemoveAt(order, i), RemoveAt(holds, i))
  {
    var r, rest, left := order[i], RemoveAt(order, i), RemoveAt(holds, i);
    forall j | 0 <= j < |rest|
      ensures rest[j] == order[if j < i then j else j + 1] && left[j] == holds[if j < i then j else j + 1] { }
    forall s | s in reqs - {r} ensures s in rest {
      var k :| 0 <= k < |order| && order[k] == s;
      assert rest[if k < i then k else k - 1] == s;
    }
  }

  lemma AddHeld(reqs: Reqs, order: seq<nat>, holds: seq<nat>, r: nat, q: Req)
    requires Held(reqs, order, holds) && r !in reqs
    ensures Held(reqs[r := q], order + [r], holds + [q.node])
  {
  }

  lemma HeldNodes(reqs: Reqs, order: seq<nat>, holds: seq<nat>)
    requires Held(reqs, order, holds)
    ensures forall r :: r in reqs ==> reqs[r].node in holds
  {
    forall r | r in reqs ensures reqs[r].node in holds {
      var k :| 0 <= k < |order| && order[k] == r;
      assert holds[k] == reqs[r].node;
    }
  }

  ghost function AsSet(s: set<int>): iset<int> {
    iset v | v in s
  }

  function SlotSet(kv: seq<int>): set<int> {
    set i | 0 <= i < |kv| :: kv[i]
  }

  lemma SlotSetIs(kv: seq<int>, a: nat, b: nat)
    requires a <= b <= |kv|
    ensures AsSet(SlotSet(kv[a..b])) == Range(kv, a, b)
  {
    forall v ensures v in SlotSet(kv[a..b]) <==> v in Range(kv, a, b) {
      if i: nat :| a <= i < b && kv[i] == v { assert kv[a..b][i - a] == v; }
      if i :| 0 <= i < b - a && kv[a..b][i] == v { assert kv[a + i] == v; }
    }
  }

  ghost predicate UniformKeys(reqs: Reqs) {
    forall r {:trigger reqs[r]} :: r in reqs ==> Uniform(reqs[r].key)
  }

  /** What of a request's tokens is matched: at least the last token is left to compute, or all from `logprobStart` on. */
  function Limited(k: RadixKey, logprobStart: Option<int>): (r: RadixKey)
    ensures r.space == k.space && r.tokens <= k.tokens && (k.tokens != [] ==> |r.tokens| < |k.tokens|)
    ensures logprobStart.Some? && logprobStart.value >= 0 ==> |r.tokens| <= logprobStart.value
  {
    var most := |k.tokens| - 1;
    var limit := if logprobStart.Some? && logprobStart.value >= 0 then Min(most, logprobStart.value) else most;
    RadixKey(k.tokens[..Max(limit, 0)], k.space)
  }

  /** Request `r` has `n` more slots, and the letters `more`. */
  ghost predicate ExtendedBy(was: Reqs, now: Reqs, r: nat, more: Key, n: nat) {
    && r in was && r in now && |now[r].kv| == |was[r].kv| + n && was[r].kv <= now[r].kv
    && now == was[r := Longer(was[r], more, now[r].kv[|was[r].kv|..])]
  }

  /** Any `n` of the free slots. */
  method Alloc(free: set<int>, n: nat) returns (slots: seq<int>)
    requires n <= |free|
    ensures |slots| == n && NoRepeats(slots) && forall v :: v in slots ==> v in free
  {
    slots := [];
    var rest := free;
    while |slots| < n
      invariant |slots| <= n && |rest| == |free| - |slots| && rest <= free && NoRepeats(slots)
      invariant forall v :: v in slots ==> v in free && v !in rest
    {
      assert rest != {};
      var v := AnyOf(rest);
      rest := rest - {v};
      slots := slots + [v];
    }
  }

  class RequestCache {
    const cache: RadixCache
    var free: set<int>
    var reqs: Reqs
    ghost var order: seq<nat>
    ghost const all: iset<int>

    ghost predicate Valid()
      reads this, cache
    {
      && cache.Valid() && Held(reqs, order, cache.holds) && SlotInv(cache.nodes, cache.path, AsSet(free), reqs, all)
      && UniformKeys(reqs)
    }

    /** All slots are free at first. */
    constructor (slots: set<int>)
      ensures Valid() && fresh(cache) && all == AsSet(slots) && free == slots && reqs == map[]
    {
      cache := new RadixCache();
      free, reqs, order, all := slots, map[], [], AsSet(slots);
      new;
      EmptyTree(cache.nodes, cache.path);
    }

    /**
     A request arrives: its tokens up to a limit are matched, and it takes over the slots of their longest cached prefix
     and locks the node they end at.
     */
    method Start(r: nat, k: RadixKey, p: nat, logprobStart: Option<int>) returns (value: seq<int>)
      requires Valid() && r !in reqs && p > 0
      modifies this, cache
      ensures Valid() && free == old(free)
      ensures LongestInPages(old(cache.nodes), old(cache.path), Limited(k, logprobStart), p, value)
      ensures k.tokens != [] ==> |value| * p < |k.tokens|
      ensures SameContent(old(cache.nodes), old(cache.path), cache.nodes, cache.path)
      ensures var key := Letters(Whole(Limited(k, logprobStart), p), p);
        |value| <= |key| && r in reqs && reqs == old(reqs)[r := Req(key[..|value|], value, |value|, reqs[r].node)]
    {
      var last;
      value, last := Match(Limited(k, logprobStart), p);
      ghost var u, x := cache.nodes, cache.path;
      Admit(r, Letters(Whole(Limited(k, logprobStart), p), p), value, last);
      SameContentTwice(old(cache.nodes), old(cache.path), u, x, cache.nodes, cache.path);
    }

    /** The match alone: no request changes, and the slots and the node found are the tree's. */
    method Match(k: RadixKey, p: nat) returns (value: seq<int>, last: nat)
      requires Valid() && p > 0
      modifies cache`nodes, cache`next, cache`path
      ensures Valid() && SameContent(old(cache.nodes), old(cache.path), cache.nodes, cache.path)
      ensures LongestInPages(old(cache.nodes), old(cache.path), k, p, value)
      ensures Matched(Letters(Whole(k, p), p), value, last)
    {
      ghost var t, w := cache.nodes, cache.path;
      value, last := MatchTokens(cache, k, p);
      LettersUniform(Whole(k, p), p);
      ReadsOn(t, w, cache.nodes, cache.path, Letters(Whole(k, p), p), value);
      SameContentKeeps(t, w, cache.nodes, cache.path, AsSet(free), reqs, all);
    }

    /** The slots are what the tree has for a prefix of the key, and `last` is where that prefix ends. */
    ghost predicate Matched(key: Key, value: seq<int>, last: nat)
      reads this, cache
    {
      && |value| <= |key| && Uniform(key) && Reads(cache.nodes, cache.path, key, value)
      && At(cache.nodes, cache.path, last, key, |value|)
    }

    /** The request is admitted while what was matched for it is still there. */
    method Admit(r: nat, key: Key, value: seq<int>, last: nat)
      requires Valid() && r !in reqs && Matched(key, value, last)
      modifies this, cache
      ensures Valid() && free == old(free)
      ensures SameContent(old(cache.nodes), old(cache.path), cache.nodes, cache.path)
      ensures reqs == old(reqs)[r := Req(key[..|value|], value, |value|, last)]
    {
      StartKeeps(cache.nodes, cache.path, AsSet(free), reqs, all, r, key, value, last);
      var q := Req(key[..|value|], value, |value|, last);
      AddHeld(reqs, order, cache.holds, r, q);
      reqs := reqs[r := q];
      order := order + [r];
      Lock(last);
    }

    /** Locks a node on behalf of the request that was just added to `order`. */
    method Lock(node: nat)
      requires cache.Valid() && node in cache.nodes
      requires Held(reqs, order, cache.holds + [node])
      requires SlotInv(cache.nodes, cache.path, AsSet(free), reqs, all) && UniformKeys(reqs)
      modifies cache`nodes, cache`evictable, cache`guarded, cache`leaves, cache`holds
      ensures Valid() && SameContent(old(cache.nodes), old(cache.path), cache.nodes, cache.path)
    {
      ghost var t := cache.nodes;
      var _ := cache.IncLockRef(node);
      ContentIgnoresLocks(t, cache.nodes, cache.path);
      SameContentKeeps(t, cache.path, cache.nodes, cache.path, AsSet(free), reqs, all);
    }

    /** Undoes the lock of a request that has just left `reqs`. */
    method Unlock(node: nat, ghost i: nat, ghost were: Reqs)
      requires cache.Valid() && i < |cache.holds| && cache.holds[i] == node
      requires Held(were, order, cache.holds) && i < |order| && reqs == were - {order[i]}
      requires SlotInv(cache.nodes, cache.path, AsSet(free), reqs, all) && UniformKeys(reqs)
      modifies cache, this`order
      ensures Valid() && SameContent(old(cache.nodes), old(cache.path), cache.nodes, cache.path)
    {
      ghost var t := cache.nodes;
      ReleaseHeld(were, order, cache.holds, i);
      order := RemoveAt(order, i);
      var _ := cache.DecLockRef(node, i);
      ContentIgnoresLocks(t, cache.nodes, cache.path);
      SameContentKeeps(t, cache.path, cache.nodes, cache.path, AsSet(free), reqs, all);
    }

    /** Free slots become the request's own, for its next tokens. */
    method TakeSlots(r: nat, more: Key, slots: seq<int>)
      requires Valid() && r in reqs && NoRepeats(slots) && (forall v :: v in slots ==> v in free)
      requires |reqs[r].key + more| <= |reqs[r].kv + slots| && Uniform(reqs[r].key + more)
      modifies this`free, this`reqs
      ensures Valid() && |free| == |old(free)| - |slots|
      ensures free == old(free) - SlotSet(slots) && reqs == old(reqs)[r := Longer(old(reqs)[r], more, slots)]
    {
      var q := reqs[r];
      SlotSetIs(slots, 0, |slots|);
      assert slots[0..|slots|] == slots;
      LongerKeeps(cache.nodes, cache.path, AsSet(free), reqs, all, r, more, slots);
      assert AsSet(free - SlotSet(slots)) == AsSet(free) - Range(slots, 0, |slots|);
      SameNodes(reqs, order, cache.holds, r, Longer(q, more, slots));
      TakenSize(free, slots);
      free := free - SlotSet(slots);
      reqs := reqs[r := q.(key := q.key + more, kv := q.kv + slots)];
    }

    /**
     A request gets slots for its next tokens. If there are too few free ones the cache is asked to evict as many as are
     wanted; it fails if and only if free and evictable slots together are too few.
     */
    method Extend(r: nat, more: Key, n: nat, rank: nat -> int) returns (ok: bool, ghost freed: seq<int>)
      requires Valid() && r in reqs && |reqs[r].key + more| <= |reqs[r].kv| + n && Uniform(reqs[r].key + more)
      modifies this`free, this`reqs, cache
      ensures Valid() && (ok <==> n <= |old(free)| + old(cache.evictable))
      ensures !ok ==> reqs == old(reqs)
      ensures ok ==> ExtendedBy(old(reqs), reqs, r, more, n)
      ensures |free| == |old(free)| + |freed| - (if ok then n else 0) && (n <= |old(free)| ==> freed == [])
      ensures Shrunk(old(cache.nodes), old(cache.path), cache.nodes, cache.path, freed)
    {
      freed := [];
      NothingEvicted(cache.nodes, cache.path);
      if |free| < n {
        ghost var victims;
        freed, victims := Evict(n, rank);
      }
      if |free| < n {
        return false, freed;
      }
      var slots := Alloc(free, n);
      TakeSlots(r, more, slots);
      ok := true;
    }

    /** The slots of request `r` are shared out between the tree and the allocator. */
    method ShareOut(r: nat) returns (prefix: nat)
      requires Valid() && r in reqs
      modifies this`free, cache`nodes, cache`next, cache`path, cache`evictable, cache`leaves
      ensures cache.Valid() && SlotInv(cache.nodes, cache.path, AsSet(free), reqs - {r}, all)
      ensures var q := reqs[r];
        && q.kept <= prefix <= |q.key| <= |q.kv| && LongestIs(old(cache.nodes), old(cache.path), q.key, prefix)
        && Extended(old(cache.nodes), old(cache.path), cache.nodes, cache.path, q.key, q.kv[..|q.key|], prefix)
        && free == old(free) + SlotSet(q.kv[q.kept..prefix]) + SlotSet(q.kv[|q.key|..|q.kv|])
    {
      var q := reqs[r];
      ghost var t, w := cache.nodes, cache.path;
      assert ReqOk(t, w, q);
      prefix := cache.Insert(q.key, q.kv[..|q.key|]);
      KeptIsStored(t, w, q, prefix);
      FinishKeeps(t, w, cache.nodes, cache.path, AsSet(free), reqs, all, r, prefix);
      SlotSetIs(q.kv, q.kept, prefix);
      SlotSetIs(q.kv, |q.key|, |q.kv|);
      FreeMore(free, SlotSet(q.kv[q.kept..prefix]));
      free := free + SlotSet(q.kv[q.kept..prefix]);
      FreeMore(free, SlotSet(q.kv[|q.key|..|q.kv|]));
      free := free + SlotSet(q.kv[|q.key|..|q.kv|]);
    }

    /**
     A finished request is cached: its slots that duplicate the tree's and those behind its last whole page are freed,
     the tree keeps the others, and its lock is undone.
     */
    method CacheFinished(r: nat) returns (prefix: nat)
      requires Valid() && r in reqs
      modifies this, cache
      ensures Valid() && reqs == old(reqs) - {r}
      ensures var q := old(reqs)[r];
        && q.kept <= prefix <= |q.key| <= |q.kv| && LongestIs(old(cache.nodes), old(cache.path), q.key, prefix)
        && Extended(old(cache.nodes), old(cache.path), cache.nodes, cache.path, q.key, q.kv[..|q.key|], prefix)
        && free == old(free) + SlotSet(q.kv[q.kept..prefix]) + SlotSet(q.kv[|q.key|..|q.kv|])
    {
      var q := reqs[r];
      ghost var i :| 0 <= i < |order| && order[i] == r;
      prefix := ShareOut(r);
      ghost var were, t, w := reqs, cache.nodes, cache.path;
      reqs := reqs - {r};
      Unlock(q.node, i, were);
      ExtendedThenSame(old(cache.nodes), old(cache.path), t, w, cache.nodes, cache.path, q.key, q.kv[..|q.key|], prefix);
    }

    /**
     A request that goes on is cached: duplicates are freed, the request takes the tree's slots for all its whole
     pages and keeps its own behind them, and its lock moves to the node of its last whole page.
     */
    method CacheUnfinished(r: nat) returns (prefix: nat)
      requires Valid() && r in reqs
      modifies this, cache
      ensures Valid() && reqs.Keys == old(reqs).Keys && forall s :: s in reqs && s != r ==> reqs[s] == old(reqs)[s]
      ensures var q, p := old(reqs)[r], reqs[r];
        && q.kept <= prefix <= |q.key| <= |q.kv| && LongestIs(old(cache.nodes), old(cache.path), q.key, prefix)
        && free == old(free) + SlotSet(q.kv[q.kept..prefix])
        && p.key == q.key && p.kept == |q.key| && |p.kv| == |q.kv| && p.kv[|q.key|..] == q.kv[|q.key|..]
        && Extended(old(cache.nodes), old(cache.path), cache.nodes, cache.path, q.key, q.kv[..|q.key|], prefix)
    {
      var q := reqs[r];
      ghost var t, w := cache.nodes, cache.path;
      assert ReqOk(t, w, q);
      var value, last;
      prefix, value, last := InsertAndMatch(q.key, q.kv[..|q.key|]);
      KeptIsStored(t, w, q, prefix);
      SettleKeeps(t, w, cache.nodes, cache.path, AsSet(free), reqs, all, r, prefix, value, last);
      SlotSetIs(q.kv, q.kept, prefix);
      FreeMore(free, SlotSet(q.kv[q.kept..prefix]));
      free := free + SlotSet(q.kv[q.kept..prefix]);
      ghost var were, u, x := reqs, cache.nodes, cache.path;
      reqs := reqs[r := Req(q.key, value + q.kv[|q.key|..], |q.key|, last)];
      MoveLock(r, q.node, last, were);
      ExtendedThenSame(t, w, u, x, cache.nodes, cache.path, q.key, q.kv[..|q.key|], prefix);
    }

    /** Stores a key and looks it up again: the lookup finds all of it. */
    method InsertAndMatch(key: Key, value: seq<int>) returns (prefix: nat, slots: seq<int>, last: nat)
      requires cache.Valid() && |value| == |key| && Uniform(key)
      modifies cache`nodes, cache`next, cache`path, cache`evictable, cache`leaves
      ensures cache.Valid() && LongestIs(old(cache.nodes), old(cache.path), key, prefix)
      ensures Extended(old(cache.nodes), old(cache.path), cache.nodes, cache.path, key, value, prefix)
      ensures |slots| == |key| && Reads(cache.nodes, cache.path, key, slots)
      ensures At(cache.nodes, cache.path, last, key, |key|) && PathsKept(old(cache.path), cache.path)
    {
      ghost var t, w := cache.nodes, cache.path;
      prefix := cache.Insert(key, value);
      ghost var mid, midPath := cache.nodes, cache.path;
      slots, last := cache.MatchPrefix(key);
      ExtendedThenSame(t, w, mid, midPath, cache.nodes, cache.path, key, value, prefix);
      WholeKeyStored(t, w, mid, midPath, key, value, prefix, |slots|);
      ReadsOn(mid, midPath, cache.nodes, cache.path, key, slots);
    }

    /** The lock of request `r` moves from its old node to its new one. */
    method MoveLock(r: nat, node: nat, last: nat, ghost were: Reqs)
      requires cache.Valid() && Held(were, order, cache.holds) && r in were && were[r].node == node
      requires r in reqs && reqs == were[r := reqs[r]] && reqs[r].node == last && last in cache.nodes
      requires SlotInv(cache.nodes, cache.path, AsSet(free), reqs, all) && UniformKeys(reqs)
      modifies cache, this`order
      ensures Valid() && SameContent(old(cache.nodes), old(cache.path), cache.nodes, cache.path)
    {
      ghost var i :| 0 <= i < |order| && order[i] == r;
      ReleaseHeld(were, order, cache.holds, i);
      order := RemoveAt(order, i);
      ghost var t := cache.nodes;
      var _ := cache.DecLockRef(node, i);
      ghost var u := cache.nodes;
      ContentIgnoresLocks(t, u, cache.path);
      SameContentKeeps(t, cache.path, u, cache.path, AsSet(free), reqs, all);
      AddHeld(were - {r}, order, cache.holds, r, reqs[r]);
      assert (were - {r})[r := reqs[r]] == reqs;
      order := order + [r];
      Lock(last);
      SameContentTwice(t, cache.path, u, cache.path, cache.nodes, cache.path);
    }

    /** A finished request that is not to be cached: all its own slots are freed. */
    method DropFinished(r: nat)
      requires Valid() && r in reqs
      modifies this, cache
      ensures Valid() && reqs == old(reqs) - {r}
      ensures SameContent(old(cache.nodes), old(cache.path), cache.nodes, cache.path)
      ensures var q := old(reqs)[r]; q.kept <= |q.kv| && free == old(free) + SlotSet(q.kv[q.kept..|q.kv|])
    {
      var q := reqs[r];
      ghost var were := reqs;
      ghost var i :| 0 <= i < |order| && order[i] == r;
      assert ReqOk(cache.nodes, cache.path, q);
      DropKeeps(cache.nodes, cache.path, AsSet(free), reqs, all, r);
      SlotSetIs(q.kv, q.kept, |q.kv|);
      FreeMore(free, SlotSet(q.kv[q.kept..|q.kv|]));
      free := free + SlotSet(q.kv[q.kept..|q.kv|]);
      reqs := reqs - {r};
      Unlock(q.node, i, were);
    }

    /** Eviction: the slots taken from the tree are free again, and no request loses anything it relies on. */
    method Evict(num: int, rank: nat -> int) returns (freed: seq<int>, ghost victims: seq<nat>)
      requires Valid()
      modifies this`free, cache
      ensures Valid() && NoRepeats(freed) && free == old(free) + SlotSet(freed)
      ensures |free| == |old(free)| + |freed| && cache.evictable == old(cache.evictable) - |freed|
      ensures Shrunk(old(cache.nodes), old(cache.path), cache.nodes, cache.path, freed)
      ensures VictimRun(old(cache.nodes), cache.nodes, victims, rank, |freed|, num)
      ensures |freed| >= num || cache.evictable == 0
    {
      ghost var t, w := cache.nodes, cache.path;
      HeldNodes(reqs, order, cache.holds);
      freed, victims := cache.Evict(num, rank);
      EvictKeeps(t, w, cache.nodes, cache.path, freed, cache.holds, AsSet(free), reqs, all);
      FreedSize(t, w, cache.nodes, cache.path, freed, free, reqs, all);
      SlotSetIs(freed, 0, |freed|);
      assert freed[0..|freed|] == freed;
      FreeMore(free, SlotSet(freed));
      free := free + SlotSet(freed);
    }
  }

  lemma WholeKeyStored(
      t: Tree, path: Paths, u: Tree, w: Paths, key: Key, value: seq<int>, prefix: nat, d: nat)
    requires Shape(t, path) && Shape(u, w) && |value| == |key| && Extended(t, path, u, w, key, value, prefix)
    requires LongestIs(t, path, key, prefix) && LongestIs(u, w, key, d)
    ensures d == |key|
  {
    if |key| > 0 {
      StoredIsHeld(t, path, key, |key|);
      StoredIsHeld(u, w, key, |key|);
      if prefix == |key| {
        var v :| Holds(t, path, key, |key|, v);
        assert Holds(u, w, key, |key|, v);
      } else {
        assert Holds(u, w, key, |key|, value[|key| - 1]);
      }
    }
  }

  lemma SlotSetSize(slots: seq<int>)
    requires NoRepeats(slots)
    ensures |SlotSet(slots)| == |slots|
  {
    DistinctSize(slots);
    assert SlotSet(slots) == set x | x in slots;
  }

  lemma TakenSize(free: set<int>, slots: seq<int>)
    requires NoRepeats(slots) && forall v :: v in slots ==> v in free
    ensures |free - SlotSet(slots)| == |free| - |slots|
  {
    SlotSetSize(slots);
    assert SlotSet(slots) <= free;
  }

  /** An evicted slot was no free one. */
  lemma FreedSize(
      t: Tree, path: Paths, u: Tree, w: Paths, freed: seq<int>, free: set<int>, reqs: Reqs, all: iset<int>)
    requires Shrunk(t, path, u, w, freed) && Shape(u, w) && SlotInv(t, path, AsSet(free), reqs, all) && NoRepeats(freed)
    ensures |free + SlotSet(freed)| == |free| + |freed|
  {
    SlotSetSize(freed);
    EvictSlots(t, path, u, w, freed);
    forall v | v in SlotSet(freed) ensures v !in free {
      assert v in Range(freed, 0, |freed|);
      assert v in TreeSlots(t, path);
      assert v in AsSet(free) <==> v in free;
    }
  }

  lemma FreeMore(free: set<int>, more: set<int>)
    ensures AsSet(free + more) == AsSet(free) + AsSet(more)
  {
  }

  lemma SameNodes(reqs: Reqs, order: seq<nat>, holds: seq<nat>, r: nat, q: Req)
    requires Held(reqs, order, holds) && r in reqs && q.node == reqs[r].node
    ensures Held(reqs[r := q], order, holds)
  {
  }

  lemma EmptyTree(t: Tree, path: Paths)
    requires t.Keys == {ROOT}
    ensures Distinct(t, path) && TreeSlots(t, path) == iset{}
  {
    forall x, d: nat, v ensures !Holds(t, path, x, d, v) { }
  }
}
