/**
 Keys as the callers give them: token ids with an optional name space, cut into pages of `p` tokens. The comparison the
 tree works with runs over tokens page by page and is proved to be the comparison of letters, also for keys that end
 in a part of a page. Matching and insertion are then stated for such keys.
 */
module RadixKeys {
  import opened Arithmetic
  import opened Wrappers
  import opened RadixTree
  import opened RadixUpdates
  import opened Radix

  datatype RadixKey = RadixKey(tokens: seq<int>, space: Option<string>)

  /** The slices `s[:p]` and `s[p:]`. */
  function First(s: seq<int>, p: nat): seq<int> {
    if p <= |s| then s[..p] else s
  }

  function Rest(s: seq<int>, p: nat): seq<int> {
    if p <= |s| then s[p..] else []
  }

  /** The pages of some tokens as letters; the last one may be shorter. */
  function Pages(tokens: seq<int>, space: Option<string>, p: nat): (r: Key)
    requires p > 0
    decreases |tokens|
  {
    if tokens == [] then [] else [Letter(space, First(tokens, p))] + Pages(Rest(tokens, p), space, p)
  }

  function Letters(k: RadixKey, p: nat): Key
    requires p > 0
  {
    Pages(k.tokens, k.space, p)
  }

  lemma {:induction false} PagesHaveSpace(tokens: seq<int>, space: Option<string>, p: nat)
    requires p > 0
    ensures forall i :: 0 <= i < |Pages(tokens, space, p)| ==> Pages(tokens, space, p)[i].space == space
    decreases |tokens|
  {
    if tokens != [] { PagesHaveSpace(Rest(tokens, p), space, p); }
  }

  /** The letters of a key are of one name space, as insertion wants them. */
  lemma LettersUniform(k: RadixKey, p: nat)
    requires p > 0
    ensures Uniform(Letters(k, p))
  {
    PagesHaveSpace(k.tokens, k.space, p);
  }

  /** Two keys share a prefix of `d` letters, `d` positive, exactly if they share name space and the tokens of `d` pages. */
  lemma SharedPrefix(a: RadixKey, b: RadixKey, p: nat, d: nat)
    requires p > 0 && d > 0
    ensures Agree(Letters(a, p), Letters(b, p), d) <==> a.space == b.space && SamePages(a.tokens, b.tokens, p, d)
  {
    PagesAgree(a.tokens, a.space, b.tokens, b.space, p, d);
  }

  /** The first `d` pages are there and the same. */
  predicate SamePages(a: seq<int>, b: seq<int>, p: nat, d: nat)
    decreases d
  {
    d == 0 || (a != [] && b != [] && First(a, p) == First(b, p) && SamePages(Rest(a, p), Rest(b, p), p, d - 1))
  }

  lemma AgreeTail(x: Key, y: Key, d: nat)
    requires x != [] && y != [] && d > 0
    ensures Agree(x, y, d) <==> x[0] == y[0] && Agree(x[1..], y[1..], d - 1)
  {
    if x[0] == y[0] && Agree(x[1..], y[1..], d - 1) {
      forall i | 0 <= i < d ensures x[i] == y[i] {
        if i > 0 { assert x[1..][i - 1] == y[1..][i - 1]; }
      }
    }
    if Agree(x, y, d) {
      forall i | 0 <= i < d - 1 ensures x[1..][i] == y[1..][i] { assert x[i + 1] == y[i + 1]; }
    }
  }

  lemma {:induction false} PagesAgree(
      a: seq<int>, s: Option<string>, b: seq<int>, t: Option<string>, p: nat, d: nat)
    requires p > 0
    ensures Agree(Pages(a, s, p), Pages(b, t, p), d) <==> d == 0 || (s == t && SamePages(a, b, p, d))
    decreases d
  {
    if d > 0 && a != [] && b != [] {
      var x, y := Pages(a, s, p), Pages(b, t, p);
      assert x[1..] == Pages(Rest(a, p), s, p) && y[1..] == Pages(Rest(b, p), t, p);
      AgreeTail(x, y, d);
      PagesAgree(Rest(a, p), s, Rest(b, p), t, p, d - 1);
    }
  }

  // ---------- the comparison ----------

  /** How many tokens two lists share page by page, a shared last part counting as a page. */
  function PageMatch(a: seq<int>, b: seq<int>, p: nat): nat
    requires p > 0
    decreases |a|
  {
    if a == [] || b == [] || First(a, p) != First(b, p) then 0 else p + PageMatch(Rest(a, p), Rest(b, p), p)
  }

  lemma FirstDifference(x: Key, y: Key, k: nat, i: nat)
    requires Agree(x, y, k) && (k < |x| && k < |y| ==> x[k] != y[k]) && i <= k
    ensures KeyMatch(x, y, 0, i) == k
    decreases k - i
  {
    if i < k { FirstDifference(x, y, k, i + 1); }
  }

  /** In one name space, the tokens counted are the letters shared, times the page size. */
  lemma {:induction false} PageMatchIsKeyMatch(a: seq<int>, b: seq<int>, s: Option<string>, p: nat)
    requires p > 0
    ensures PageMatch(a, b, p) == KeyMatch(Pages(a, s, p), Pages(b, s, p), 0, 0) * p
    decreases |a|
  {
    var x, y := Pages(a, s, p), Pages(b, s, p);
    if a == [] || b == [] || First(a, p) != First(b, p) {
      FirstDifference(x, y, 0, 0);
    } else {
      var a', b' := Rest(a, p), Rest(b, p);
      PageMatchIsKeyMatch(a', b', s, p);
      var k := KeyMatch(Pages(a', s, p), Pages(b', s, p), 0, 0);
      OneLetterMore(x, y, Pages(a', s, p), Pages(b', s, p), k);
      OneMorePage(k, p);
    }
  }

  lemma OneLetterMore(x: Key, y: Key, x': Key, y': Key, k: nat)
    requires x != [] && y != [] && x[0] == y[0] && x == [x[0]] + x' && y == [y[0]] + y' && k == KeyMatch(x', y', 0, 0)
    ensures KeyMatch(x, y, 0, 0) == k + 1
  {
    assert x[1..] == x' && y[1..] == y';
    AgreeTail(x, y, k + 1);
    FirstDifference(x, y, k + 1, 0);
  }

  lemma OneMorePage(k: nat, p: nat)
    ensures (k + 1) * p == k * p + p
  {
  }

  /**
   The comparison of a stored piece with the rest of a key. Different name spaces are an error; otherwise it counts
   tokens page by page, and what it counts is the letters the two keys share.
   */
  method KeyMatchPaged(a: RadixKey, b: RadixKey, p: nat) returns (r: Option<nat>)
    requires p > 0
    ensures r.None? <==> a.space != b.space
    ensures r.Some? ==> r.value == KeyMatch(Letters(a, p), Letters(b, p), 0, 0) * p
  {
    if a.space != b.space {
      return None;
    }
    var i := CountShared(a.tokens, b.tokens, p);
    PageMatchIsKeyMatch(a.tokens, b.tokens, a.space, p);
    r := Some(i);
  }

  /** The loop over pages. */
  method CountShared(a: seq<int>, b: seq<int>, p: nat) returns (i: nat)
    requires p > 0
    ensures i == PageMatch(a, b, p)
  {
    var minLen := Min(|a|, |b|);
    i := 0;
    while i < minLen
      invariant i + PageMatch(Rest(a, i), Rest(b, i), p) == PageMatch(a, b, p)
    {
      NextPage(a, i, p);
      NextPage(b, i, p);
      if Slice(a, i, i + p) != Slice(b, i, i + p) {
        break;
      }
      i := i + p;
    }
  }

  /** `s[i:j]`. */
  function Slice(s: seq<int>, i: nat, j: nat): seq<int>
    requires i <= |s| && i <= j
  {
    s[i..Min(j, |s|)]
  }

  lemma NextPage(s: seq<int>, i: nat, p: nat)
    requires i < |s|
    ensures Slice(s, i, i + p) == First(Rest(s, i), p) && Rest(s, i + p) == Rest(Rest(s, i), p) && Rest(s, i) != []
  {
  }

  // ---------- whole pages ----------

  /** The key cut to whole pages. */
  function Whole(k: RadixKey, p: nat): RadixKey
    requires p > 0
  {
    ProductOfQuotient(|k.tokens|, p);
    RadixKey(k.tokens[..|k.tokens| / p * p], k.space)
  }

  lemma ProductOfQuotient(n: nat, p: nat)
    requires p > 0
    ensures n / p * p <= n < n / p * p + p
  {
  }

  /** The first `e` pages of the tokens are the first `e` letters. */
  lemma {:induction false} PagesPrefix(tokens: seq<int>, space: Option<string>, p: nat, e: nat)
    requires p > 0 && e * p <= |tokens|
    ensures e <= |Pages(tokens, space, p)| && Pages(tokens[..e * p], space, p) == Pages(tokens, space, p)[..e]
    decreases e
  {
    if e > 0 {
      OneMorePage(e - 1, p);
      var rest := Rest(tokens, p);
      PagesPrefix(rest, space, p, e - 1);
      assert Rest(tokens[..e * p], p) == rest[..(e - 1) * p];
      assert First(tokens[..e * p], p) == First(tokens, p);
    }
  }

  /** A whole number of pages has as many letters. */
  lemma WholeLength(tokens: seq<int>, space: Option<string>, p: nat, e: nat)
    requires p > 0 && |tokens| == e * p
    ensures |Pages(tokens, space, p)| == e
  {
    PagesPrefix(tokens, space, p, e);
    assert tokens[..e * p] == tokens;
  }

  lemma StoredShorter(t: Tree, path: Paths, x: Key, y: Key, d: nat)
    requires Agree(x, y, d) && Stored(t, path, x, d)
    ensures Stored(t, path, y, d)
  {
    var n :| Covers(t, path, n, x, d);
    assert Covers(t, path, n, y, d);
  }

  /** The tree has these tokens, `e` whole pages of them, in this name space. */
  ghost predicate HasPages(t: Tree, path: Paths, k: RadixKey, p: nat, e: nat)
    requires p > 0 && e * p <= |k.tokens|
  {
    Stored(t, path, Letters(RadixKey(k.tokens[..e * p], k.space), p), e)
  }

  /** The tree has slot `v` for the last of the first `e` pages. */
  ghost predicate HasSlot(t: Tree, path: Paths, k: RadixKey, p: nat, e: nat, v: int)
    requires p > 0 && e * p <= |k.tokens|
  {
    Holds(t, path, Letters(RadixKey(k.tokens[..e * p], k.space), p), e, v)
  }

  /** In any longer key with the same pages these are the same. */
  lemma PagesAreLetters(t: Tree, path: Paths, k: RadixKey, key: Key, p: nat, e: nat, v: int)
    requires p > 0 && e * p <= |k.tokens| && e <= |key| && e <= |Letters(k, p)| && key[..e] == Letters(k, p)[..e]
    ensures HasPages(t, path, k, p, e) <==> Stored(t, path, key, e)
    ensures HasSlot(t, path, k, p, e, v) <==> Holds(t, path, key, e, v)
  {
    var x := Letters(RadixKey(k.tokens[..e * p], k.space), p);
    PagesPrefix(k.tokens, k.space, p, e);
    assert x == key[..e];
    assert Agree(x, key, e) && Agree(key, x, e);
    if Stored(t, path, x, e) { StoredShorter(t, path, x, key, e); }
    if Stored(t, path, key, e) { StoredShorter(t, path, key, x, e); }
    if Holds(t, path, x, e, v) { HoldsShorter(t, path, x, key, e, v); }
    if Holds(t, path, key, e, v) { HoldsShorter(t, path, key, x, e, v); }
  }

  lemma PagesFit(n: nat, p: nat, e: nat)
    requires p > 0
    ensures e * p <= n <==> e <= n / p
  {
    ProductOfQuotient(n, p);
    if e <= n / p { ProductOrder(e, n / p, p); } else { ProductOrder(n / p + 1, e, p); OneMorePage(n / p, p); }
  }

  lemma WholeIsPrefix(k: RadixKey, p: nat, e: nat)
    requires p > 0
    ensures |Letters(Whole(k, p), p)| == |k.tokens| / p
    ensures e * p <= |k.tokens| <==> e <= |k.tokens| / p
    ensures e <= |k.tokens| / p ==> e <= |Letters(k, p)| && Letters(Whole(k, p), p)[..e] == Letters(k, p)[..e]
  {
    var n := |k.tokens| / p;
    PagesFit(|k.tokens|, p, e);
    PagesFit(|k.tokens|, p, n);
    PagesPrefix(k.tokens, k.space, p, n);
    WholeLength(Whole(k, p).tokens, k.space, p, n);
    if e <= n { ShorterTake(Letters(k, p), n, e); }
  }

  lemma ShorterTake(x: Key, n: nat, e: nat)
    requires e <= n <= |x|
    ensures x[..n][..e] == x[..e]
  {
  }

  // ---------- the cache ----------

  /**
   The match of a key of any length: one slot per page, for the longest prefix in whole pages that is stored under the
   key's name space.
   */
  method MatchTokens(cache: RadixCache, k: RadixKey, p: nat) returns (value: seq<int>, last: nat)
    requires cache.Valid() && p > 0
    modifies cache`nodes, cache`next, cache`path
    ensures cache.Valid() && PathsKept(old(cache.path), cache.path)
    ensures SameContent(old(cache.nodes), old(cache.path), cache.nodes, cache.path)
    ensures Reads(old(cache.nodes), old(cache.path), Letters(Whole(k, p), p), value)
    ensures LongestIs(old(cache.nodes), old(cache.path), Letters(Whole(k, p), p), |value|)
    ensures At(cache.nodes, cache.path, last, Letters(Whole(k, p), p), |value|)
    ensures LongestInPages(old(cache.nodes), old(cache.path), k, p, value)
  {
    value, last := cache.MatchPrefix(Letters(Whole(k, p), p));
    LongestPages(old(cache.nodes), old(cache.path), k, p, value);
  }

  ghost predicate LongestInPages(t: Tree, path: Paths, k: RadixKey, p: nat, value: seq<int>)
    requires p > 0
  {
    && |value| * p <= |k.tokens|
    && (forall e: nat :: 0 < e <= |value| ==> e * p <= |k.tokens| && HasSlot(t, path, k, p, e, value[e - 1]))
    && (forall e: nat :: |value| < e && e * p <= |k.tokens| ==> !HasPages(t, path, k, p, e))
  }

  lemma LongestPages(t: Tree, path: Paths, k: RadixKey, p: nat, value: seq<int>)
    requires p > 0 && Reads(t, path, Letters(Whole(k, p), p), value)
    requires LongestIs(t, path, Letters(Whole(k, p), p), |value|)
    ensures LongestInPages(t, path, k, p, value)
  {
    var key := Letters(Whole(k, p), p);
    WholeIsPrefix(k, p, |value|);
    forall e: nat | 0 < e <= |value| ensures e * p <= |k.tokens| && HasSlot(t, path, k, p, e, value[e - 1]) {
      WholeIsPrefix(k, p, e);
      assert Holds(t, path, key, e - 1 + 1, value[e - 1]);
      PagesAreLetters(t, path, k, key, p, e, value[e - 1]);
    }
    forall e: nat | |value| < e && e * p <= |k.tokens| ensures !HasPages(t, path, k, p, e) {
      WholeIsPrefix(k, p, e);
      PagesAreLetters(t, path, k, key, p, e, 0);
    }
  }

  /** Once `d` pages of a key are stored, every key with the same name space and the same pages finds them. */
  lemma SharedPagesAreFound(t: Tree, path: Paths, a: RadixKey, b: RadixKey, p: nat, d: nat)
    requires p > 0 && d > 0 && Stored(t, path, Letters(a, p), d)
    requires a.space == b.space && SamePages(a.tokens, b.tokens, p, d)
    ensures Stored(t, path, Letters(b, p), d)
  {
    SharedPrefix(a, b, p, d);
    StoredShorter(t, path, Letters(a, p), Letters(b, p), d);
  }
}
