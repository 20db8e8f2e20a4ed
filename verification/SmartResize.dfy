/**
 The image resizing rule of the replay builder, over exact reals, with the agent's parameters: factor 32, at least
 56 * 56 and at most 16 * 16 * 4 * 12800 pixels, long side at most 8192.
 */
module SmartResize {
  import opened Arithmetic
  import opened Wrappers

  const FACTOR := 32
  const MIN_PIXELS := 56 * 56
  const MAX_PIXELS := 16 * 16 * 4 * 12800
  const MAX_LONG_SIDE := 8192

  datatype Result = Ok(height: int, width: int) | TooSmall | TooLong

  // ---------- rounding ----------

  /** Python's `round`: to nearest, ties to even. */
  function Round(x: real): (r: int)
    ensures x - 0.5 <= r as real <= x + 0.5
    ensures r as real == x - 0.5 || r as real == x + 0.5 ==> r % 2 == 0
  {
    var f := x.Floor;
    var d := x - f as real;
    if d < 0.5 then f
    else if d > 0.5 then f + 1
    else if f % 2 == 0 then f else f + 1
  }

  function Ceil(x: real): (r: int)
    ensures x <= r as real < x + 1.0
  {
    -((-x).Floor)
  }

  function RoundByFactor(n: int): int {
    Round(n as real / 32.0) * FACTOR
  }

  function FloorByFactor(x: real): int {
    (x / 32.0).Floor * FACTOR
  }

  function CeilByFactor(x: real): int {
    Ceil(x / 32.0) * FACTOR
  }

  // ---------- the rule ----------

  predicate Accepted(height: int, width: int) {
    height >= 2 && width >= 2 && Max(height, width) as real / Min(height, width) as real <= 200.0
  }

  /** One side after the long-side cap. */
  function Cap(side: int, height: int, width: int): int
    requires height >= 2 && width >= 2
  {
    var long := Max(height, width);
    if long <= MAX_LONG_SIDE then side
    else
      var beta := long as real / MAX_LONG_SIDE as real;
      (side as real / beta).Floor
  }

  /** `beta` is the square root of `num / den`. */
  ghost predicate IsRoot(beta: real, num: int, den: int)
    requires den != 0
  {
    beta > 0.0 && beta * beta == num as real / den as real
  }

  /** The square root the branch takes: `shrink` above the upper bound, `grow` below the lower one, else any. */
  ghost predicate RootsFor(h: int, w: int, shrink: real, grow: real) {
    var area := RoundByFactor(h) * RoundByFactor(w);
    && shrink > 0.0 && grow > 0.0
    && (area > MAX_PIXELS ==> IsRoot(shrink, h * w, MAX_PIXELS))
    && (area < MIN_PIXELS ==> h * w != 0 && IsRoot(grow, MIN_PIXELS, h * w))
  }

  /** `shrink` and `grow` stand for the two square roots the rule may take. */
  function Resize(height: int, width: int, shrink: real, grow: real): (r: Result)
    requires Accepted(height, width) ==>
               RootsFor(Cap(height, height, width), Cap(width, height, width), shrink, grow)
    ensures r.Ok? <==> Accepted(height, width)
  {
    if height < 2 || width < 2 then TooSmall
    else if Max(height, width) as real / Min(height, width) as real > 200.0 then TooLong
    else
      Fit(Cap(height, height, width), Cap(width, height, width), shrink, grow)
  }

  /** The sides after the cap, rounded, or scaled down or up to the pixel bounds. */
  function Fit(h: int, w: int, shrink: real, grow: real): (r: Result)
    requires shrink > 0.0
    ensures r.Ok?
  {
    var hBar, wBar := RoundByFactor(h), RoundByFactor(w);
    if hBar * wBar > MAX_PIXELS then Ok(FloorByFactor(h as real / shrink), FloorByFactor(w as real / shrink))
    else if hBar * wBar < MIN_PIXELS then Ok(CeilByFactor(h as real * grow), CeilByFactor(w as real * grow))
    else Ok(hBar, wBar)
  }

  // ---------- the cap ----------

  lemma CapLong(side: int, long: int)
    requires long > MAX_LONG_SIDE && 0 < side <= long <= 200 * side
    ensures var c := (side as real / (long as real / 8192.0)).Floor; 40 <= c <= 8192
  {
    var s, l := side as real, long as real;
    assert s / (l / 8192.0) == s * 8192.0 / l;
    assert s * 8192.0 >= 40.0 * l;
    assert s * 8192.0 / l >= 40.0 by { QuotientBounds(s * 8192.0, l, 40.0, 8192.0); }
    assert s * 8192.0 / l <= 8192.0 by { QuotientBounds(s * 8192.0, l, 40.0, 8192.0); }
  }

  lemma QuotientBounds(x: real, y: real, lo: real, hi: real)
    requires y > 0.0 && lo * y <= x <= hi * y
    ensures lo <= x / y <= hi
  {
    var q := x / y;
    assert q * y == x;
    assert (q - lo) * y >= 0.0 && (hi - q) * y >= 0.0;
  }

  /** After the cap both sides are at least 2 and neither is more than 205 times the other. */
  lemma CapBounds(height: int, width: int)
    requires Accepted(height, width)
    ensures var h, w := Cap(height, height, width), Cap(width, height, width);
      h >= 2 && w >= 2 && h <= 205 * w && w <= 205 * h
  {
    var long, short := Max(height, width), Min(height, width);
    var q := long as real / short as real;
    assert q * short as real == long as real;
    ProductMonotone(q, 200.0, short as real, short as real);
    if long > MAX_LONG_SIDE {
      CapLong(height, long);
      CapLong(width, long);
    }
  }

  // ---------- the bounds ----------

  lemma RootBelow(x: real, bound: real, square: real)
    requires bound > 0.0 && x * x >= square && square >= bound * bound && x > 0.0
    ensures x >= bound
  {
    assert (x - bound) * (x + bound) == x * x - bound * bound;
    SignOfProduct(x - bound, x + bound);
  }

  lemma SignOfProduct(a: real, b: real)
    requires a * b >= 0.0 && b > 0.0
    ensures a >= 0.0
  {
  }

  /** Sides with a bounded ratio and a known product are not small. */
  lemma SideAtLeast(x: real, y: real)
    requires x > 0.0 && y > 0.0 && x * y == MAX_PIXELS as real && y <= 205.0 * x
    ensures x >= 64.0
  {
    ProductMonotone(x, x, y, 205.0 * x);
    assert x * (205.0 * x) == 205.0 * (x * x);
    RootBelow(x, 64.0, 63000.0);
  }

  lemma SideAtMost(x: real, y: real)
    requires x > 0.0 && y > 0.0 && x * y == MIN_PIXELS as real && y <= 205.0 * x
    ensures y <= 802.0
  {
    ProductMonotone(y, 205.0 * x, y, y);
    assert (205.0 * x) * y == 205.0 * (x * y);
    assert (802.0 - y) * (802.0 + y) == 802.0 * 802.0 - y * y;
    SignOfProduct(802.0 - y, 802.0 + y);
  }

  /** The two scaled sides have product `num` and keep the ratio. */
  lemma ShrunkSides(h: int, w: int, beta: real, x: real, y: real)
    requires h >= 2 && w >= 2 && h <= 205 * w && w <= 205 * h && IsRoot(beta, h * w, MAX_PIXELS)
    requires x == h as real / beta && y == w as real / beta
    ensures x > 0.0 && y > 0.0 && x * y == y * x == MAX_PIXELS as real && y <= 205.0 * x && x <= 205.0 * y
  {
    var a, b := h as real, w as real;
    assert x * beta == a && y * beta == b;
    assert (x * y) * (beta * beta) == a * b;
    assert (h * w) as real == a * b;
    assert beta * beta * MAX_PIXELS as real == a * b;
    assert (x * y - MAX_PIXELS as real) * (beta * beta) == 0.0;
    assert (205.0 * x - y) * beta == 205.0 * a - b && (205.0 * y - x) * beta == 205.0 * b - a;
    SignOfProduct(205.0 * x - y, beta);
    SignOfProduct(205.0 * y - x, beta);
  }

  lemma GrownSides(h: int, w: int, beta: real, x: real, y: real)
    requires h >= 2 && w >= 2 && h <= 205 * w && w <= 205 * h && h * w != 0 && IsRoot(beta, MIN_PIXELS, h * w)
    requires x == h as real * beta && y == w as real * beta
    ensures x > 0.0 && y > 0.0 && x * y == y * x == MIN_PIXELS as real && y <= 205.0 * x && x <= 205.0 * y
  {
    var a, b := h as real, w as real;
    assert (h * w) as real == a * b && a * b > 0.0;
    assert (beta * beta) * (a * b) == MIN_PIXELS as real;
    assert (a * beta) * (b * beta) == (beta * beta) * (a * b);
    ProductMonotone(0.0, 205.0 * a - b, 0.0, beta);
    ProductMonotone(0.0, 205.0 * b - a, 0.0, beta);
    assert (205.0 * a - b) * beta == 205.0 * x - y && (205.0 * b - a) * beta == 205.0 * y - x;
  }

  lemma FloorBounds(x: real)
    requires x >= 64.0
    ensures var f := FloorByFactor(x); 64 <= f && f as real <= x && f % FACTOR == 0
  {
    var k := (x / 32.0).Floor;
    assert k >= 2;
  }

  lemma CeilBounds(x: real)
    requires x > 0.0
    ensures var f := CeilByFactor(x); 32 <= f && x <= f as real < x + 32.0 && f % FACTOR == 0
  {
    var k := Ceil(x / 32.0);
    assert k >= 1;
  }

  /** What a resized image must be. */
  predicate GoodSize(height: int, width: int) {
    && height > 0 && width > 0 && height % FACTOR == 0 && width % FACTOR == 0
    && MIN_PIXELS <= height * width <= MAX_PIXELS
  }

  lemma FloorArea(x: real, y: real)
    requires x >= 64.0 && y >= 64.0 && x * y == MAX_PIXELS as real
    ensures GoodSize(FloorByFactor(x), FloorByFactor(y))
  {
    FloorBounds(x);
    FloorBounds(y);
    var a, b := FloorByFactor(x), FloorByFactor(y);
    ProductMonotone(64.0, a as real, 64.0, b as real);
    ProductMonotone(a as real, x, b as real, y);
    assert (a * b) as real == a as real * b as real;
  }

  lemma CeilArea(x: real, y: real)
    requires 0.0 < x <= 802.0 && 0.0 < y <= 802.0 && x * y == MIN_PIXELS as real
    ensures GoodSize(CeilByFactor(x), CeilByFactor(y))
  {
    CeilBounds(x);
    CeilBounds(y);
    var a, b := CeilByFactor(x), CeilByFactor(y);
    ProductMonotone(x, a as real, y, b as real);
    ProductMonotone(a as real, 834.0, b as real, 834.0);
    assert (a * b) as real == a as real * b as real;
  }

  lemma ShrinkGood(h: int, w: int, beta: real)
    requires h >= 2 && w >= 2 && h <= 205 * w && w <= 205 * h && IsRoot(beta, h * w, MAX_PIXELS)
    ensures GoodSize(FloorByFactor(h as real / beta), FloorByFactor(w as real / beta))
  {
    var x, y := h as real / beta, w as real / beta;
    ShrunkSides(h, w, beta, x, y);
    SideAtLeast(x, y);
    SideAtLeast(y, x);
    FloorArea(x, y);
  }

  lemma GrowGood(h: int, w: int, beta: real)
    requires h >= 2 && w >= 2 && h <= 205 * w && w <= 205 * h && h * w != 0 && IsRoot(beta, MIN_PIXELS, h * w)
    ensures GoodSize(CeilByFactor(h as real * beta), CeilByFactor(w as real * beta))
  {
    var x, y := h as real * beta, w as real * beta;
    GrownSides(h, w, beta, x, y);
    SideAtMost(x, y);
    SideAtMost(y, x);
    CeilArea(x, y);
  }

  lemma RoundedGood(h: int, w: int)
    requires h >= 2 && w >= 2 && MIN_PIXELS <= RoundByFactor(h) * RoundByFactor(w) <= MAX_PIXELS
    ensures GoodSize(RoundByFactor(h), RoundByFactor(w))
  {
    RoundedNonNegative(h);
    RoundedNonNegative(w);
    PositiveFactors(RoundByFactor(h), RoundByFactor(w));
  }

  lemma RoundedNonNegative(n: int)
    requires n >= 2
    ensures RoundByFactor(n) >= 0 && RoundByFactor(n) % FACTOR == 0
  {
    RoundNonNegative(n as real / 32.0);
    MultipleOfFactor(Round(n as real / 32.0));
  }

  lemma RoundNonNegative(x: real)
    requires x >= 0.0
    ensures Round(x) >= 0
  {
  }

  lemma MultipleOfFactor(k: int)
    ensures (k * FACTOR) % FACTOR == 0
    ensures k >= 0 ==> k * FACTOR >= 0
  {
  }

  lemma PositiveFactors(a: int, b: int)
    requires a >= 0 && b >= 0 && a * b > 0
    ensures a > 0 && b > 0
  {
  }

  lemma FitGood(h: int, w: int, shrink: real, grow: real)
    requires h >= 2 && w >= 2 && h <= 205 * w && w <= 205 * h && RootsFor(h, w, shrink, grow)
    ensures GoodSize(Fit(h, w, shrink, grow).height, Fit(h, w, shrink, grow).width)
  {
    var area := RoundByFactor(h) * RoundByFactor(w);
    if area > MAX_PIXELS {
      ShrinkGood(h, w, shrink);
    } else if area < MIN_PIXELS {
      GrowGood(h, w, grow);
    } else {
      RoundedGood(h, w);
    }
  }

  /**
   An image is resized if and only if its sides are at least 2 and their ratio is at most 200, and then it comes out
   with positive sides that are multiples of 32 and an area between the two pixel bounds, whichever branch it takes.
   */
  lemma ResizeBounds(height: int, width: int, shrink: real, grow: real)
    requires Accepted(height, width) ==>
               RootsFor(Cap(height, height, width), Cap(width, height, width), shrink, grow)
    ensures var r := Resize(height, width, shrink, grow);
      (r.Ok? <==> Accepted(height, width)) && (r.Ok? ==> GoodSize(r.height, r.width))
  {
    if Accepted(height, width) {
      CapBounds(height, width);
      FitGood(Cap(height, height, width), Cap(width, height, width), shrink, grow);
    }
  }

  /** `x` and `y` differ by less than one block. */
  predicate Near(x: int, y: real) {
    y - 32.0 < x as real < y + 32.0
  }

  /** Two sides are within one block of the same positive multiple of `h` and `w`. */
  ghost predicate Scaled(r: Result, h: int, w: int, scale: real) {
    r.Ok? && scale > 0.0 && Near(r.height, scale * h as real) && Near(r.width, scale * w as real)
  }

  ghost predicate KeepsRatio(r: Result, h: int, w: int) {
    exists scale :: Scaled(r, h, w, scale)
  }

  lemma ShrunkShape(h: int, w: int, beta: real)
    requires beta > 0.0
    ensures KeepsRatio(Ok(FloorByFactor(h as real / beta), FloorByFactor(w as real / beta)), h, w)
  {
    ShrunkNear(h, beta);
    ShrunkNear(w, beta);
    assert Scaled(Ok(FloorByFactor(h as real / beta), FloorByFactor(w as real / beta)), h, w, 1.0 / beta);
  }

  lemma GrownShape(h: int, w: int, beta: real)
    requires beta > 0.0
    ensures KeepsRatio(Ok(CeilByFactor(h as real * beta), CeilByFactor(w as real * beta)), h, w)
  {
    GrownNear(h, beta);
    GrownNear(w, beta);
    assert Scaled(Ok(CeilByFactor(h as real * beta), CeilByFactor(w as real * beta)), h, w, beta);
  }

  lemma RoundedShape(h: int, w: int)
    ensures KeepsRatio(Ok(RoundByFactor(h), RoundByFactor(w)), h, w)
  {
    NearRound(h);
    NearRound(w);
    assert Scaled(Ok(RoundByFactor(h), RoundByFactor(w)), h, w, 1.0);
  }

  /** Both sides are scaled alike: each is within one block of the same multiple of its own capped side. */
  lemma KeepsShape(h: int, w: int, shrink: real, grow: real)
    requires shrink > 0.0 && grow > 0.0
    ensures KeepsRatio(Fit(h, w, shrink, grow), h, w)
  {
    ShrunkShape(h, w, shrink);
    GrownShape(h, w, grow);
    RoundedShape(h, w);
  }

  lemma ShrunkNear(n: int, beta: real)
    requires beta > 0.0
    ensures 1.0 / beta > 0.0 && Near(FloorByFactor(n as real / beta), (1.0 / beta) * n as real)
  {
    NearFloor(n as real / beta);
    var r := 1.0 / beta;
    assert r * beta == 1.0;
    assert n as real / beta == r * n as real;
  }

  lemma GrownNear(n: int, beta: real)
    ensures Near(CeilByFactor(n as real * beta), beta * n as real)
  {
    NearCeil(n as real * beta);
  }

  lemma NearFloor(x: real)
    ensures Near(FloorByFactor(x), x)
  {
    var k := (x / 32.0).Floor;
    assert k as real <= x / 32.0 < k as real + 1.0;
  }

  lemma NearCeil(x: real)
    ensures Near(CeilByFactor(x), x)
  {
    var k := Ceil(x / 32.0);
    assert x / 32.0 <= k as real < x / 32.0 + 1.0;
  }

  lemma NearRound(n: int)
    ensures Near(RoundByFactor(n), n as real)
  {
    var k := Round(n as real / 32.0);
    assert n as real / 32.0 - 0.5 <= k as real <= n as real / 32.0 + 0.5;
  }

  // ---------- tokens ----------

  /** One token per 32 x 32 block, plus the two markers. */
  function ImageTokens(width: int, height: int): int {
    (RoundByFactor(width) / FACTOR) * (RoundByFactor(height) / FACTOR) + 2
  }

  lemma RoundIsIdentity(n: int)
    requires n % FACTOR == 0
    ensures RoundByFactor(n) == n
  {
    var k := n / FACTOR;
    assert n == k * FACTOR;
    assert n as real / 32.0 == k as real;
  }

  lemma TokensOfGoodSize(height: int, width: int)
    requires GoodSize(height, width)
    ensures height * width == 1024 * (ImageTokens(width, height) - 2)
    ensures 6 <= ImageTokens(width, height) <= 12802
  {
    RoundIsIdentity(width);
    RoundIsIdentity(height);
    var a, b := width / FACTOR, height / FACTOR;
    BlockProduct(a, b);
  }

  lemma BlockProduct(a: int, b: int)
    ensures (b * 32) * (a * 32) == 1024 * (a * b)
  {
  }

  /** One resized image costs at most 12802 tokens. */
  lemma TokensBounded(height: int, width: int, shrink: real, grow: real)
    requires Accepted(height, width)
    requires RootsFor(Cap(height, height, width), Cap(width, height, width), shrink, grow)
    ensures var r := Resize(height, width, shrink, grow); r.Ok? && 6 <= ImageTokens(r.width, r.height) <= 12802
  {
    ResizeBounds(height, width, shrink, grow);
    var r := Resize(height, width, shrink, grow);
    TokensOfGoodSize(r.height, r.width);
  }
}
