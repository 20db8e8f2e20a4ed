/** KV-split counts of the decode kernel, and the slot layout of the mixed INT2/INT4 KV pool. */
module KvSlots {
  import opened Arithmetic
  import opened Wrappers

  // ---------- ceiling division ----------

  /** `-(-a // b)`. */
  function CeilDiv(a: int, b: int): (q: int)
    requires b > 0
  {
    -((-a) / b)
  }

  lemma CeilDivBounds(a: int, b: int)
    requires b > 0
    ensures (CeilDiv(a, b) - 1) * b < a <= CeilDiv(a, b) * b
  {
    var q := (-a) / b;
    assert q * b <= -a < q * b + b;
  }

  /** The ceiling is at most `k` exactly when `k` pieces suffice. */
  lemma CeilDivIff(a: int, b: int, k: int)
    requires b > 0
    ensures CeilDiv(a, b) <= k <==> a <= k * b
  {
    var q := CeilDiv(a, b);
    CeilDivBounds(a, b);
    if q <= k { ProductOrder(q, k, b); }
    else { ProductOrder(k, q - 1, b); }
  }

  lemma CeilDivMonotone(a: int, a': int, b: int)
    requires b > 0 && a <= a'
    ensures CeilDiv(a, b) <= CeilDiv(a', b)
  {
    CeilDivIff(a', b, CeilDiv(a', b));
    CeilDivIff(a, b, CeilDiv(a', b));
  }

  lemma CeilDivAntitone(a: int, b: int, b': int)
    requires 0 < b <= b' && a >= 0
    ensures CeilDiv(a, b') <= CeilDiv(a, b)
  {
    var q := CeilDiv(a, b);
    CeilDivIff(a, b, q);
    CeilDivIff(a, b, -1);
    assert q >= 0;
    assert q * b <= q * b' by { ProductOrder(b, b', q); assert b * q == q * b && b' * q == q * b'; }
    CeilDivIff(a, b', q);
  }

  lemma CeilDivPositive(a: int, b: int)
    requires b > 0 && a >= 1
    ensures CeilDiv(a, b) >= 1
  {
    CeilDivIff(a, b, 0);
  }

  /** Cutting `total` into chunks sized for `k` splits never needs more than `k` of them. */
  lemma ChunksSuffice(total: int, k: int, s: int)
    requires k >= 1 && 1 <= s <= total
    ensures CeilDiv(total, k) >= 1 && 1 <= CeilDiv(s, CeilDiv(total, k)) <= k
  {
    var c := CeilDiv(total, k);
    CeilDivPositive(total, k);
    CeilDivIff(total, k, c);
    assert c * k == k * c;
    CeilDivIff(s, c, k);
    CeilDivPositive(s, c);
  }

  // ---------- split counts ----------

  function Longest(lens: seq<int>): (m: int)
    requires lens != []
    ensures m in lens && forall i :: 0 <= i < |lens| ==> lens[i] <= m
  {
    if |lens| == 1 then lens[0] else Max(Longest(lens[..|lens| - 1]), lens[|lens| - 1])
  }

  function Shortest(lens: seq<int>): (m: int)
    requires lens != []
    ensures m in lens && forall i :: 0 <= i < |lens| ==> m <= lens[i]
  {
    if |lens| == 1 then lens[0] else Min(Shortest(lens[..|lens| - 1]), lens[|lens| - 1])
  }

  /** Positive lengths, at least one query head per KV head, a positive bound; `cores` counts multiprocessors. */
  predicate Sensible(lens: seq<int>, numHead: int, numKvHead: int, maxSplits: int, cores: int) {
    lens != [] && (forall i :: 0 <= i < |lens| ==> lens[i] >= 1) && numHead >= numKvHead >= 1 && maxSplits >= 1 && cores >= 1
  }

  /** The chunk size that evens out short and long sequences. */
  function BalanceChunk(longest: int, shortest: int, maxSplits: int): (c: int)
    requires 1 <= shortest <= longest && maxSplits >= 1
    ensures c >= 1
  {
    var low := if longest * 8 < shortest * 10 then longest else shortest;
    CeilDivPositive(longest, low);
    var k := Min(CeilDiv(longest, low), maxSplits);
    CeilDivPositive(longest, k);
    CeilDiv(longest, k)
  }

  /** How many thread blocks the batch needs without splitting. */
  function TokenGrid(numSeq: int, numHead: int, numKvHead: int): (g: int)
    requires numSeq >= 1 && numHead >= numKvHead >= 1
    ensures g >= 1
  {
    var group := numHead / numKvHead;
    assert group >= 1;
    if group == 1 then ProductPositive(numSeq, numHead); numSeq * numHead
    else
      CeilDivPositive(numHead, Min(16, group));
      ProductPositive(numSeq, CeilDiv(numHead, Min(16, group)));
      numSeq * CeilDiv(numHead, Min(16, group))
  }

  lemma ProductPositive(a: int, b: int)
    requires a >= 1 && b >= 1
    ensures a * b >= 1
  {
  }

  /** The chunk size that keeps the device busy; `log` is the base-2 logarithm of the longest length over 64. */
  function DeviceChunk(longest: int, grid: int, maxSplits: int, cores: int, log: real): (c: int)
    requires longest >= 1 && grid >= 1 && maxSplits >= 1 && cores >= 1
    ensures c >= 1
  {
    var ext := (cores as real * (if log > 1.0 then log else 1.0)).Floor;
    ExtPositive(cores, log);
    CeilDivPositive(ext, grid);
    var k := Min(CeilDiv(ext, grid), maxSplits);
    CeilDivPositive(longest, k);
    CeilDiv(longest, k)
  }

  lemma ExtPositive(cores: int, log: real)
    requires cores >= 1
    ensures (cores as real * (if log > 1.0 then log else 1.0)).Floor >= 1
  {
    var f := if log > 1.0 then log else 1.0;
    assert (f - 1.0) * cores as real >= 0.0;
    assert cores as real * f >= cores as real;
  }

  function SplitsOf(s: int, chunk1: int, chunk2: int): int
    requires chunk1 >= 1 && chunk2 >= 1
  {
    Max(CeilDiv(s, chunk1), CeilDiv(s, chunk2))
  }

  /** The split counts of a batch. */
  function KvSplits(lens: seq<int>, numHead: int, numKvHead: int, maxSplits: int, cores: int, log: real): (r: seq<int>)
    requires Sensible(lens, numHead, numKvHead, maxSplits, cores)
    ensures |r| == |lens|
  {
    var c1 := BalanceChunk(Longest(lens), Shortest(lens), maxSplits);
    var c2 := DeviceChunk(Longest(lens), TokenGrid(|lens|, numHead, numKvHead), maxSplits, cores, log);
    seq(|lens|, i requires 0 <= i < |lens| => SplitsOf(lens[i], c1, c2))
  }

  /** Two chunk sizes act as the smaller one. */
  lemma SplitsAreSmallerChunk(s: int, c1: int, c2: int)
    requires s >= 0 && c1 >= 1 && c2 >= 1
    ensures SplitsOf(s, c1, c2) == CeilDiv(s, Min(c1, c2))
  {
    if c1 <= c2 { CeilDivAntitone(s, c1, c2); } else { CeilDivAntitone(s, c2, c1); }
  }

  lemma BalanceFits(longest: int, shortest: int, maxSplits: int, s: int)
    requires 1 <= shortest <= longest && maxSplits >= 1 && 1 <= s <= longest
    ensures 1 <= CeilDiv(s, BalanceChunk(longest, shortest, maxSplits)) <= maxSplits
  {
    var low := if longest * 8 < shortest * 10 then longest else shortest;
    CeilDivPositive(longest, low);
    ChunksSuffice(longest, Min(CeilDiv(longest, low), maxSplits), s);
  }

  lemma DeviceFits(longest: int, grid: int, maxSplits: int, cores: int, log: real, s: int)
    requires grid >= 1 && maxSplits >= 1 && cores >= 1 && 1 <= s <= longest
    ensures 1 <= CeilDiv(s, DeviceChunk(longest, grid, maxSplits, cores, log)) <= maxSplits
  {
    var ext := (cores as real * (if log > 1.0 then log else 1.0)).Floor;
    ExtPositive(cores, log);
    CeilDivPositive(ext, grid);
    ChunksSuffice(longest, Min(CeilDiv(ext, grid), maxSplits), s);
  }

  /** Every split count is between 1 and the bound. */
  lemma SplitsInRange(lens: seq<int>, numHead: int, numKvHead: int, maxSplits: int, cores: int, log: real, i: nat)
    requires Sensible(lens, numHead, numKvHead, maxSplits, cores) && i < |lens|
    ensures 1 <= KvSplits(lens, numHead, numKvHead, maxSplits, cores, log)[i] <= maxSplits
  {
    BalanceFits(Longest(lens), Shortest(lens), maxSplits, lens[i]);
    DeviceFits(Longest(lens), TokenGrid(|lens|, numHead, numKvHead), maxSplits, cores, log, lens[i]);
  }

  /** Longer sequences never get fewer splits. */
  lemma SplitsMonotone(lens: seq<int>, numHead: int, numKvHead: int, maxSplits: int, cores: int, log: real, i: nat, j: nat)
    requires Sensible(lens, numHead, numKvHead, maxSplits, cores) && i < |lens| && j < |lens| && lens[i] <= lens[j]
    ensures KvSplits(lens, numHead, numKvHead, maxSplits, cores, log)[i] <=
            KvSplits(lens, numHead, numKvHead, maxSplits, cores, log)[j]
  {
    var c1 := BalanceChunk(Longest(lens), Shortest(lens), maxSplits);
    var c2 := DeviceChunk(Longest(lens), TokenGrid(|lens|, numHead, numKvHead), maxSplits, cores, log);
    CeilDivMonotone(lens[i], lens[j], c1);
    CeilDivMonotone(lens[i], lens[j], c2);
  }

  // ---------- slots ----------

  const G := 32

  /** The INT2 part of a sequence: a whole number of pages. */
  function Int2Length(length: int, fraction: real): (n: int)
    requires length >= 0 && 0.0 <= fraction <= 1.0
    ensures 0 <= n <= length && n % G == 0
  {
    FloorWithin(length, fraction);
    var k := (length as real * fraction).Floor / G;
    assert k * G <= (length as real * fraction).Floor;
    k * G
  }

  lemma FloorWithin(length: int, fraction: real)
    requires length >= 0 && 0.0 <= fraction <= 1.0
    ensures 0 <= (length as real * fraction).Floor <= length
  {
    assert length as real * fraction >= 0.0;
    assert length as real * (1.0 - fraction) >= 0.0;
  }

  /** The first INT4 slot; slots below it are INT2, and its own slot 0 is never handed out. */
  function Offset(batch: int, n2: int): int {
    batch * n2 + G
  }

  /** The slot of token `j` of sequence `b`. */
  function SlotOf(batch: int, n2: int, n4: int, b: int, j: int): int {
    if j < n2 then G + b * n2 + j else Offset(batch, n2) + 1 + b * n4 + (j - n2)
  }

  /** The slots of sequence `b`: INT2 tokens first. */
  function Row(batch: int, n2: nat, n4: nat, b: int): (r: seq<int>)
    ensures |r| == n2 + n4
    ensures forall j :: 0 <= j < n2 + n4 ==> r[j] == SlotOf(batch, n2, n4, b, j)
  {
    seq(n2, j requires 0 <= j < n2 => G + b * n2 + j) +
    seq(n4, j requires 0 <= j < n4 => Offset(batch, n2) + 1 + b * n4 + j)
  }

  /** The slots of the first `b` sequences. */
  function Rows(batch: int, n2: nat, n4: nat, b: nat): (r: seq<int>)
    ensures |r| == b * (n2 + n4)
  {
    if b == 0 then [] else Rows(batch, n2, n4, b - 1) + Row(batch, n2, n4, b - 1)
  }

  /** The index tensor. */
  method BuildSlots(batch: nat, n2: nat, n4: nat) returns (idx: seq<int>)
    ensures idx == Rows(batch, n2, n4, batch)
  {
    idx := [];
    var b := 0;
    while b < batch
      invariant 0 <= b <= batch && idx == Rows(batch, n2, n4, b)
    {
      var parts := [];
      if n2 != 0 {
        parts := parts + seq(n2, j requires 0 <= j < n2 => G + b * n2 + j);
      }
      if n4 != 0 {
        parts := parts + seq(n4, j requires 0 <= j < n4 => Offset(batch, n2) + 1 + b * n4 + j);
      }
      assert parts == Row(batch, n2, n4, b);
      idx := idx + parts;
      b := b + 1;
    }
  }

  /** Token `j` of sequence `b` is where the row pointers say: at position `b * (n2 + n4) + j`. */
  lemma {:induction false} SlotAt(batch: int, n2: nat, n4: nat, count: nat, b: nat, j: nat)
    requires b < count && j < n2 + n4
    ensures 0 <= b * (n2 + n4) + j < count * (n2 + n4)
    ensures Rows(batch, n2, n4, count)[b * (n2 + n4) + j] == SlotOf(batch, n2, n4, b, j)
  {
    PositionFits(b, count, n2 + n4, j);
    if b < count - 1 {
      SlotAt(batch, n2, n4, count - 1, b, j);
    }
  }

  lemma PositionFits(b: nat, count: nat, s: nat, j: nat)
    requires b < count && j < s
    ensures 0 <= b * s + j < count * s
  {
    NextBlock(b, count, s);
  }

  /** INT2 slots lie in whole pages after the first page and below the offset; INT4 slots lie above the offset, in range. */
  lemma SlotsInRange(batch: nat, n2: nat, n4: nat, b: nat, j: nat)
    requires b < batch && j < n2 + n4
    ensures var s, offset := SlotOf(batch, n2, n4, b, j), Offset(batch, n2);
      if j < n2 then G <= s < offset else offset + 1 <= s < offset + (batch * n4 + 1)
  {
    if j < n2 { PositionFits(b, batch, n2, j); } else { PositionFits(b, batch, n4, j - n2); }
  }

  /** Numbers of the form `b * n + j` with `j < n` determine `b` and `j`. */
  lemma DigitsUnique(b: nat, j: nat, c: nat, k: nat, n: nat)
    requires j < n && k < n && b * n + j == c * n + k
    ensures b == c && j == k
  {
    if b < c { NextBlock(b, c, n); }
    if c < b { NextBlock(c, b, n); }
  }

  lemma NextBlock(b: nat, c: nat, n: nat)
    requires b < c
    ensures b * n + n <= c * n
  {
    ProductOrder(b + 1, c, n);
    assert (b + 1) * n == b * n + n;
  }

  /** No slot is handed out twice. */
  lemma SlotsDistinct(batch: nat, n2: nat, n4: nat, b: nat, j: nat, c: nat, k: nat)
    requires b < batch && c < batch && j < n2 + n4 && k < n2 + n4
    requires SlotOf(batch, n2, n4, b, j) == SlotOf(batch, n2, n4, c, k)
    ensures b == c && j == k
  {
    SlotsInRange(batch, n2, n4, b, j);
    SlotsInRange(batch, n2, n4, c, k);
    if j < n2 {
      DigitsUnique(b, j, c, k, n2);
    } else {
      DigitsUnique(b, j - n2, c, k - n2, n4);
    }
  }

  lemma DigitsOf(x: nat, n: nat, count: nat)
    requires x < count * n
    ensures n > 0 && x / n < count && x == (x / n) * n + x % n
  {
    if x / n >= count { ProductOrder(count, x / n, n); }
  }

  lemma EntryIs(batch: nat, n2: nat, n4: nat, x: nat) returns (b: nat, j: nat)
    requires x < |Rows(batch, n2, n4, batch)|
    ensures b < batch && j < n2 + n4 && x == b * (n2 + n4) + j
    ensures Rows(batch, n2, n4, batch)[x] == SlotOf(batch, n2, n4, b, j)
  {
    DigitsOf(x, n2 + n4, batch);
    b, j := x / (n2 + n4), x % (n2 + n4);
    SlotAt(batch, n2, n4, batch, b, j);
  }

  /** In the index tensor, equal entries stand at equal positions. */
  lemma SlotsBuiltDistinct(batch: nat, n2: nat, n4: nat, x: nat, y: nat)
    requires x < |Rows(batch, n2, n4, batch)| && y < |Rows(batch, n2, n4, batch)|
    requires Rows(batch, n2, n4, batch)[x] == Rows(batch, n2, n4, batch)[y]
    ensures x == y
  {
    var b, j := EntryIs(batch, n2, n4, x);
    var c, k := EntryIs(batch, n2, n4, y);
    SlotsDistinct(batch, n2, n4, b, j, c, k);
  }

  lemma PageOf(pages: nat, b: nat, j: nat)
    requires j < pages * G
    ensures (G + b * (pages * G) + j) / G == 1 + b * pages + j / G && j / G < pages
  {
    assert b * (pages * G) == (b * pages) * G;
    var x := 1 + b * pages;
    assert G + b * (pages * G) + j == x * G + j;
  }

  /** With a whole number of pages per sequence, an INT2 page belongs to one sequence, and it exists in the pool. */
  lemma PagesNotShared(batch: nat, n2: nat, n4: nat, b: nat, j: nat, c: nat, k: nat)
    requires b < batch && c < batch && j < n2 && k < n2 && n2 % G == 0
    requires SlotOf(batch, n2, n4, b, j) / G == SlotOf(batch, n2, n4, c, k) / G
    ensures b == c
    ensures 1 <= SlotOf(batch, n2, n4, b, j) / G < Offset(batch, n2) / G
  {
    var pages := n2 / G;
    assert n2 == pages * G;
    PageOf(pages, b, j);
    PageOf(pages, c, k);
    DigitsUnique(b, j / G, c, k / G, pages);
    PositionFits(b, batch, pages, j / G);
    assert batch * (pages * G) == (batch * pages) * G;
    assert Offset(batch, n2) == (batch * pages + 1) * G;
  }
}
