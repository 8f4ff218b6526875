/** Area-average downscaling: target size, block tiling and the averages themselves. */
module ImageProc {

  type U16 = x: int | 0 <= x < 0x1_0000

  /** One pixel as the decoders report it: 16-bit, alpha-premultiplied channels. */
  datatype Pixel = Pixel(r: U16, g: U16, b: U16, a: U16)

  /** One pixel of the 8-bit target. */
  datatype Rgba = Rgba(r: nat, g: nat, b: nat, a: nat)

  datatype Channel = Red | Green | Blue | Alpha

  /** A decoded image; it is only ever read. */
  datatype Image = Image(minX: int, minY: int, width: nat, height: nat, rows: seq<seq<Pixel>>) {
    predicate Valid() {
      |rows| == height && forall y :: 0 <= y < height ==> |rows[y]| == width
    }

    /** Reading outside the bounds gives the zero colour. */
    function At(x: int, y: int): Pixel
      requires Valid()
    {
      if 0 <= y - minY < height && 0 <= x - minX < width then rows[y - minY][x - minX] else Pixel(0, 0, 0, 0)
    }
  }

  function Value(p: Pixel, c: Channel): U16 {
    match c
    case Red => p.r
    case Green => p.g
    case Blue => p.b
    case Alpha => p.a
  }

  // ---- Totals and averages over a block

  ghost function RowTotal(image: Image, c: Channel, y: int, left: int, right: int): nat
    requires image.Valid()
    decreases right - left
  {
    if right <= left then 0 else RowTotal(image, c, y, left, right - 1) + Value(image.At(right - 1, y), c)
  }

  ghost function BlockTotal(image: Image, c: Channel, left: int, top: int, right: int, bottom: int): nat
    requires image.Valid()
    decreases bottom - top
  {
    if bottom <= top then 0
    else BlockTotal(image, c, left, top, right, bottom - 1) + RowTotal(image, c, bottom - 1, left, right)
  }

  function Average8(total: nat, samples: nat): nat
    requires 0 < samples
  {
    total / samples / 256
  }

  /** The 16-bit mean of a channel over a block, brought down to 8 bits; an empty block is transparent black. */
  ghost function Mean(image: Image, c: Channel, left: int, top: int, right: int, bottom: int): nat
    requires image.Valid()
  {
    if left < right && top < bottom then
      AreaFacts(right - left, bottom - top);
      Average8(BlockTotal(image, c, left, top, right, bottom), Area(right - left, bottom - top))
    else
      0
  }

  function Area(width: int, height: int): int { width * height }

  lemma AreaFacts(width: int, height: int)
    ensures Area(width, height + 1) == Area(width, height) + width
    ensures Area(0, height) == 0 == Area(width, 0)
    ensures 0 < width && 0 < height ==> 0 < Area(width, height)
  {
  }

  ghost function Means(image: Image, left: int, top: int, right: int, bottom: int): Rgba
    requires image.Valid()
  {
    Rgba(Mean(image, Red, left, top, right, bottom), Mean(image, Green, left, top, right, bottom),
         Mean(image, Blue, left, top, right, bottom), Mean(image, Alpha, left, top, right, bottom))
  }

  method AverageColor(image: Image, left: int, top: int, right: int, bottom: int) returns (color: Rgba)
    requires image.Valid()
    ensures color == Means(image, left, top, right, bottom)
    ensures right <= left || bottom <= top ==> color == Rgba(0, 0, 0, 0)
  {
    hide Area;
    var totalR, totalG, totalB, totalA, samples := 0, 0, 0, 0, 0;
    ghost var width := if left < right then right - left else 0;
    var y := top;
    AreaFacts(width, 0);
    while y < bottom
      invariant top <= y && (y <= bottom || y == top)
      invariant totalR == BlockTotal(image, Red, left, top, right, y) && totalG == BlockTotal(image, Green, left, top, right, y)
      invariant totalB == BlockTotal(image, Blue, left, top, right, y) && totalA == BlockTotal(image, Alpha, left, top, right, y)
      invariant samples == Area(width, y - top)
    {
      ghost var r, g, b, a, n := totalR, totalG, totalB, totalA, samples;
      var x := left;
      while x < right
        invariant left <= x && (x <= right || x == left)
        invariant totalR == r + RowTotal(image, Red, y, left, x) && totalG == g + RowTotal(image, Green, y, left, x)
        invariant totalB == b + RowTotal(image, Blue, y, left, x) && totalA == a + RowTotal(image, Alpha, y, left, x)
        invariant samples == n + x - left
      {
        var p := image.At(x, y);
        totalR, totalG, totalB, totalA := totalR + p.r, totalG + p.g, totalB + p.b, totalA + p.a;
        samples := samples + 1;
        x := x + 1;
      }
      AreaFacts(width, y - top);
      y := y + 1;
    }
    AreaFacts(width, y - top);
    if samples == 0 {
      return Rgba(0, 0, 0, 0);
    }
    MeanFitsInByte(image, Red, left, top, right, bottom);
    MeanFitsInByte(image, Green, left, top, right, bottom);
    MeanFitsInByte(image, Blue, left, top, right, bottom);
    MeanFitsInByte(image, Alpha, left, top, right, bottom);
    color := Rgba(totalR / samples / 256 % 256, totalG / samples / 256 % 256, totalB / samples / 256 % 256, totalA / samples / 256 % 256);
  }

  /** Bounds on a channel over a block. */
  ghost predicate Within(image: Image, c: Channel, left: int, top: int, right: int, bottom: int, low: int, high: int)
    requires image.Valid()
  {
    forall x, y :: left <= x < right && top <= y < bottom ==> low <= Value(image.At(x, y), c) <= high
  }

  function Times(a: int, b: int): int { a * b }

  lemma TimesFacts(v: int, n: int, width: int, height: int)
    ensures Times(v, 0) == 0
    ensures Times(v, n + 1) == Times(v, n) + v
    ensures Times(v, Area(width, height + 1)) == Times(v, Area(width, height)) + Times(v, width)
  {
    AreaFacts(width, height);
    Distributes(v, Area(width, height), width);
  }

  lemma Distributes(v: int, a: int, b: int)
    ensures v * (a + b) == v * a + v * b
  {
  }

  lemma {:induction false} RowBounds(image: Image, c: Channel, y: int, left: int, right: int, low: int, high: int)
    requires image.Valid() && left <= right && Within(image, c, left, y, right, y + 1, low, high)
    ensures Times(low, right - left) <= RowTotal(image, c, y, left, right) <= Times(high, right - left)
    decreases right - left
  {
    hide Times;
    TimesFacts(low, right - left - 1, 0, 0);
    TimesFacts(high, right - left - 1, 0, 0);
    if left < right {
      RowBounds(image, c, y, left, right - 1, low, high);
      assert low <= Value(image.At(right - 1, y), c) <= high;
    }
  }

  lemma {:induction false} BlockBounds(image: Image, c: Channel, left: int, top: int, right: int, bottom: int, low: int, high: int)
    requires image.Valid() && left <= right && top <= bottom && Within(image, c, left, top, right, bottom, low, high)
    ensures var n := Area(right - left, bottom - top);
            Times(low, n) <= BlockTotal(image, c, left, top, right, bottom) <= Times(high, n)
    decreases bottom - top
  {
    hide Times, Area;
    AreaFacts(right - left, bottom - top);
    TimesFacts(low, 0, right - left, bottom - top - 1);
    TimesFacts(high, 0, right - left, bottom - top - 1);
    if top < bottom {
      BlockBounds(image, c, left, top, right, bottom - 1, low, high);
      RowBounds(image, c, bottom - 1, left, right, low, high);
    }
  }

  lemma MulCancels(a: int, b: int, n: int)
    requires 0 < n && a * n < (b + 1) * n
    ensures a <= b
  {
    var excess := a - b - 1;
    assert a * n == (b + 1) * n + excess * n;
    assert excess >= 0 ==> excess * n >= 0;
  }

  lemma DivBounds(total: int, n: int, low: int, high: int)
    requires 0 < n && low * n <= total <= high * n
    ensures low <= total / n <= high
  {
    var q := total / n;
    assert q * n <= total < (q + 1) * n;
    MulCancels(low, q, n);
    MulCancels(q, high, n);
  }

  /** Each averaged channel lies between the extremes of its block, both taken to 8 bits. */
  lemma MeanBetweenExtremes(image: Image, c: Channel, left: int, top: int, right: int, bottom: int, low: int, high: int)
    requires image.Valid() && left < right && top < bottom && Within(image, c, left, top, right, bottom, low, high)
    ensures low / 256 <= Mean(image, c, left, top, right, bottom) <= high / 256
  {
    AreaFacts(right - left, bottom - top);
    BlockBounds(image, c, left, top, right, bottom, low, high);
    DivBounds(BlockTotal(image, c, left, top, right, bottom), Area(right - left, bottom - top), low, high);
  }

  /** So the conversion to a byte never wraps. */
  lemma MeanFitsInByte(image: Image, c: Channel, left: int, top: int, right: int, bottom: int)
    requires image.Valid() && left < right && top < bottom
    ensures Mean(image, c, left, top, right, bottom) < 256
  {
    MeanBetweenExtremes(image, c, left, top, right, bottom, 0, 0xffff);
  }

  /** A block of one colour averages to that colour, each channel in its own place. */
  lemma PlainBlockKeepsItsColour(image: Image, p: Pixel, left: int, top: int, right: int, bottom: int)
    requires image.Valid() && left < right && top < bottom
    requires forall x, y :: left <= x < right && top <= y < bottom ==> image.At(x, y) == p
    ensures Means(image, left, top, right, bottom) == Rgba(p.r / 256, p.g / 256, p.b / 256, p.a / 256)
  {
    hide Mean;
    MeanBetweenExtremes(image, Red, left, top, right, bottom, p.r, p.r);
    MeanBetweenExtremes(image, Green, left, top, right, bottom, p.g, p.g);
    MeanBetweenExtremes(image, Blue, left, top, right, bottom, p.b, p.b);
    MeanBetweenExtremes(image, Alpha, left, top, right, bottom, p.a, p.a);
  }

  ghost predicate Premultiplied(image: Image, c: Channel)
    requires image.Valid()
  {
    forall x, y :: Value(image.At(x, y), c) <= Value(image.At(x, y), Alpha)
  }

  lemma {:induction false} RowBelowAlpha(image: Image, c: Channel, y: int, left: int, right: int)
    requires image.Valid() && left <= right && Premultiplied(image, c)
    ensures RowTotal(image, c, y, left, right) <= RowTotal(image, Alpha, y, left, right)
    decreases right - left
  {
    if left < right {
      RowBelowAlpha(image, c, y, left, right - 1);
    }
  }

  lemma {:induction false} BlockBelowAlpha(image: Image, c: Channel, left: int, top: int, right: int, bottom: int)
    requires image.Valid() && left <= right && top <= bottom && Premultiplied(image, c)
    ensures BlockTotal(image, c, left, top, right, bottom) <= BlockTotal(image, Alpha, left, top, right, bottom)
    decreases bottom - top
  {
    if top < bottom {
      BlockBelowAlpha(image, c, left, top, right, bottom - 1);
      RowBelowAlpha(image, c, bottom - 1, left, right);
    }
  }

  /** Premultiplied input stays premultiplied: no averaged channel exceeds the averaged alpha. */
  lemma MeanBelowAlpha(image: Image, c: Channel, left: int, top: int, right: int, bottom: int)
    requires image.Valid() && left < right && top < bottom && Premultiplied(image, c)
    ensures Mean(image, c, left, top, right, bottom) <= Mean(image, Alpha, left, top, right, bottom)
  {
    AreaFacts(right - left, bottom - top);
    BlockBelowAlpha(image, c, left, top, right, bottom);
    DivMonotone(BlockTotal(image, c, left, top, right, bottom), BlockTotal(image, Alpha, left, top, right, bottom), Area(right - left, bottom - top));
  }

  lemma DivMonotone(a: int, b: int, n: int)
    requires 0 < n && a <= b
    ensures a / n <= b / n
  {
    var p, q := a / n, b / n;
    assert p * n <= a && b < (q + 1) * n;
    MulCancels(p, q, n);
  }

  lemma DivIsUnique(a: int, n: int, q: int)
    requires 0 < n && q * n <= a < (q + 1) * n
    ensures a / n == q
  {
    var p := a / n;
    assert p * n <= a < (p + 1) * n;
    MulCancels(p, q, n);
    MulCancels(q, p, n);
  }

  lemma DivAddsOne(a: int, n: int)
    requires 0 < n
    ensures (a + n) / n == a / n + 1
  {
    var q := a / n;
    assert q * n <= a < (q + 1) * n;
    assert (q + 1) * n == q * n + n && (q + 2) * n == (q + 1) * n + n;
    DivIsUnique(a + n, n, q + 1);
  }

  lemma DivCancels(a: int, n: int)
    requires 0 < n
    ensures n * a / n == a
  {
    assert n * a == a * n && (a + 1) * n == a * n + n;
    DivIsUnique(n * a, n, a);
  }

  // ---- Blocks

  /** Where the block of target index i begins along an edge of `source` pixels. */
  function BlockStart(i: int, source: int, target: int): int
    requires 0 < target
  {
    i * source / target
  }

  /** Source index s falls in the block of target index i. */
  predicate InBlock(s: int, i: int, source: int, target: int)
    requires 0 < target
  {
    0 <= i < target && BlockStart(i, source, target) <= s < BlockStart(i + 1, source, target)
  }

  lemma BlocksSpanTheEdge(source: int, target: int)
    requires 0 < target
    ensures BlockStart(0, source, target) == 0 && BlockStart(target, source, target) == source
  {
    DivCancels(source, target);
  }

  lemma BlocksAreNonEmpty(i: int, source: int, target: int)
    requires 0 < target <= source
    ensures BlockStart(i, source, target) < BlockStart(i + 1, source, target)
  {
    var a := i * source;
    assert (i + 1) * source == a + source;
    DivMonotone(a + target, a + source, target);
    DivAddsOne(a, target);
  }

  /** The blocks share the edge evenly: no two differ by more than a pixel. */
  lemma BlocksAreEven(i: int, source: int, target: int)
    requires 0 < target <= source
    ensures source / target <= BlockStart(i + 1, source, target) - BlockStart(i, source, target) <= source / target + 1
  {
    var a, q := i * source, source / target;
    var s := BlockStart(i, source, target);
    assert (i + 1) * source == a + source;
    assert s * target <= a < (s + 1) * target;
    assert q * target <= source < (q + 1) * target;
    assert (s + q) * target == s * target + q * target;
    assert (s + q + 2) * target == (s + 1) * target + (q + 1) * target;
    var next := (a + source) / target;
    assert next * target <= a + source < (next + 1) * target;
    MulCancels(s + q, next, target);
    MulCancels(next, s + q + 1, target);
  }

  lemma {:induction false} BlockStartsIncrease(i: int, j: int, source: int, target: int)
    requires 0 < target <= source && i <= j
    ensures BlockStart(i, source, target) + (j - i) <= BlockStart(j, source, target)
    decreases j - i
  {
    hide BlockStart;
    if i < j {
      BlockStartsIncrease(i, j - 1, source, target);
      BlocksAreNonEmpty(j - 1, source, target);
    }
  }

  /** The block of a source index, found by walking up from a block at or below it. */
  lemma {:induction false} BlockAbove(s: int, i: int, source: int, target: int) returns (found: int)
    requires 0 < target <= source && 0 <= i < target && BlockStart(i, source, target) <= s < source
    ensures InBlock(s, found, source, target)
    decreases target - i
  {
    hide BlockStart;
    BlocksSpanTheEdge(source, target);
    if BlockStart(i + 1, source, target) <= s {
      found := BlockAbove(s, i + 1, source, target);
    } else {
      found := i;
    }
  }

  lemma BlocksAreDisjoint(s: int, i: int, j: int, source: int, target: int)
    requires 0 < target <= source && InBlock(s, i, source, target) && InBlock(s, j, source, target)
    ensures i == j
  {
    hide BlockStart;
    if i < j {
      BlockStartsIncrease(i + 1, j, source, target);
    } else if j < i {
      BlockStartsIncrease(j + 1, i, source, target);
    }
  }

  /** Along one edge the blocks tile the source: no gap and no overlap. */
  lemma BlocksTile(s: int, source: int, target: int)
    requires 0 < target <= source && 0 <= s < source
    ensures exists i :: InBlock(s, i, source, target)
    ensures forall i, j :: InBlock(s, i, source, target) && InBlock(s, j, source, target) ==> i == j
  {
    hide BlockStart;
    BlocksSpanTheEdge(source, target);
    var found := BlockAbove(s, 0, source, target);
    forall i, j | InBlock(s, i, source, target) && InBlock(s, j, source, target) ensures i == j {
      BlocksAreDisjoint(s, i, j, source, target);
    }
  }

  // ---- Resizing

  predicate Shrinks(image: Image, maxDimension: int) {
    0 < maxDimension && (maxDimension < image.width || maxDimension < image.height)
  }

  function AtLeastOne(n: int): int { if n < 1 then 1 else n }

  function TargetWidth(image: Image, maxDimension: int): int
    requires Shrinks(image, maxDimension)
  {
    if image.width >= image.height then maxDimension else AtLeastOne(image.width * maxDimension / image.height)
  }

  function TargetHeight(image: Image, maxDimension: int): int
    requires Shrinks(image, maxDimension)
  {
    if image.width >= image.height then AtLeastOne(image.height * maxDimension / image.width) else maxDimension
  }

  /** The longest edge becomes exactly the bound, and no edge of a non-empty image grows or vanishes. */
  lemma TargetSize(image: Image, maxDimension: int)
    requires Shrinks(image, maxDimension)
    ensures var w, h := TargetWidth(image, maxDimension), TargetHeight(image, maxDimension);
            && (if image.width >= image.height then w == maxDimension else h == maxDimension)
            && 1 <= w <= maxDimension && 1 <= h <= maxDimension
            && (0 < image.width && 0 < image.height ==> w <= image.width && h <= image.height)
  {
    if image.width >= image.height {
      EdgeBounds(image.height, image.width, maxDimension);
    } else {
      EdgeBounds(image.width, image.height, maxDimension);
    }
  }

  /** The shorter edge keeps the image's proportions, cut to whole pixels and to no less than one. */
  lemma ProportionsAreKept(image: Image, maxDimension: int)
    requires Shrinks(image, maxDimension)
    ensures var w, h := TargetWidth(image, maxDimension), TargetHeight(image, maxDimension);
            if image.width >= image.height then KeepsRatio(h, w, image.height, image.width) else KeepsRatio(w, h, image.width, image.height)
  {
    if image.width >= image.height {
      FloorRatio(image.height, image.width, maxDimension);
    } else {
      FloorRatio(image.width, image.height, maxDimension);
    }
  }

  /** short : long is the largest whole ratio not above the source's, but for an edge of one pixel. */
  predicate KeepsRatio(short: int, long: int, sourceShort: int, sourceLong: int) {
    && (short == 1 || short * sourceLong <= sourceShort * long)
    && sourceShort * long < (short + 1) * sourceLong
  }

  lemma FloorRatio(short: int, long: int, bound: int)
    requires 0 <= short <= long && 0 < bound < long
    ensures KeepsRatio(AtLeastOne(short * bound / long), bound, short, long)
  {
    var q := short * bound / long;
    assert q * long <= short * bound < (q + 1) * long;
    assert (1 + 1) * long == 2 * long && (0 + 1) * long == long;
    if q < 1 {
      EdgeBounds(short, long, bound);
    }
  }

  lemma EdgeBounds(short: int, long: int, bound: int)
    requires 0 <= short <= long && 0 < bound < long
    ensures 0 <= short * bound / long <= bound && short * bound / long <= short
  {
    assert 0 * long <= short * bound <= bound * long;
    DivBounds(short * bound, long, 0, bound);
    assert short * bound <= short * long;
    DivBounds(short * bound, long, 0, short);
  }

  /** One past the block of index i; the widening of the original never applies to a non-empty image. */
  function BlockEnd(i: int, source: int, target: int): int
    requires 0 < target
  {
    var start, end := BlockStart(i, source, target), BlockStart(i + 1, source, target);
    if end <= start then start + 1 else end
  }

  ghost function Average(image: Image, x: int, y: int, w: int, h: int): Rgba
    requires image.Valid() && 0 < w && 0 < h
  {
    Means(image, image.minX + BlockStart(x, image.width, w), image.minY + BlockStart(y, image.height, h),
          image.minX + BlockEnd(x, image.width, w), image.minY + BlockEnd(y, image.height, h))
  }

  /** Fills a fresh target with block averages; null means the image is within the bound and is kept as it is. */
  method Resize(image: Image, maxDimension: int) returns (target: array2?<Rgba>)
    requires image.Valid()
    ensures target == null <==> !Shrinks(image, maxDimension)
    ensures target != null ==>
              && fresh(target)
              && target.Length1 == TargetWidth(image, maxDimension) && target.Length0 == TargetHeight(image, maxDimension)
              && forall x, y :: 0 <= x < target.Length1 && 0 <= y < target.Length0
                   ==> target[y, x] == Average(image, x, y, target.Length1, target.Length0)
  {
    hide Means;
    if maxDimension <= 0 || (image.width <= maxDimension && image.height <= maxDimension) {
      return null;
    }
    TargetSize(image, maxDimension);
    var w, h := image.width, image.height;
    if image.width >= image.height {
      w := maxDimension;
      h := AtLeastOne(image.height * maxDimension / image.width);
    } else {
      h := maxDimension;
      w := AtLeastOne(image.width * maxDimension / image.height);
    }
    target := new Rgba[h, w];
    for y := 0 to h
      invariant forall i, j :: 0 <= i < w && 0 <= j < y ==> target[j, i] == Average(image, i, j, w, h)
    {
      var top, bottom := image.minY + y * image.height / h, image.minY + (y + 1) * image.height / h;
      if bottom <= top {
        bottom := top + 1;
      }
      for x := 0 to w
        invariant forall i, j :: 0 <= i < w && 0 <= j < y ==> target[j, i] == Average(image, i, j, w, h)
        invariant forall i :: 0 <= i < x ==> target[y, i] == Average(image, i, y, w, h)
      {
        var left, right := image.minX + x * image.width / w, image.minX + (x + 1) * image.width / w;
        if right <= left {
          right := left + 1;
        }
        var color := AverageColor(image, left, top, right, bottom);
        target[y, x] := color;
      }
    }
  }

  /** No block is ever empty: one that would be takes a single pixel, as on an edge without any. */
  lemma EmptyEdgeTakesOnePixel(i: int, source: int, target: int)
    requires 0 < target && 0 <= source
    ensures BlockStart(i, source, target) < BlockEnd(i, source, target)
    ensures source == 0 ==> BlockStart(i, source, target) == 0 && BlockEnd(i, source, target) == 1
  {
  }

  /** Source pixel (sx, sy), counted from the image's corner, lies in the block averaged into target pixel (x, y). */
  predicate Feeds(image: Image, w: int, h: int, sx: int, sy: int, x: int, y: int)
    requires 0 < w && 0 < h
  {
    && 0 <= x < w && 0 <= y < h
    && BlockStart(x, image.width, w) <= sx < BlockEnd(x, image.width, w)
    && BlockStart(y, image.height, h) <= sy < BlockEnd(y, image.height, h)
  }

  /** A target pixel shows the colour of the source pixels that feed it, when they are all of one. */
  lemma TargetShowsItsSource(image: Image, w: int, h: int, x: int, y: int, p: Pixel)
    requires image.Valid() && 0 < w <= image.width && 0 < h <= image.height && 0 <= x < w && 0 <= y < h
    requires forall sx, sy :: 0 <= sx < image.width && 0 <= sy < image.height && Feeds(image, w, h, sx, sy, x, y) ==> image.rows[sy][sx] == p
    ensures Average(image, x, y, w, h) == Rgba(p.r / 256, p.g / 256, p.b / 256, p.a / 256)
  {
    hide BlockStart, Means;
    BlockLiesOnEdge(x, image.width, w);
    BlockLiesOnEdge(y, image.height, h);
    var left, right := image.minX + BlockStart(x, image.width, w), image.minX + BlockEnd(x, image.width, w);
    var top, bottom := image.minY + BlockStart(y, image.height, h), image.minY + BlockEnd(y, image.height, h);
    forall u, v | left <= u < right && top <= v < bottom ensures image.At(u, v) == p {
      assert Feeds(image, w, h, u - image.minX, v - image.minY, x, y);
    }
    PlainBlockKeepsItsColour(image, p, left, top, right, bottom);
  }

  lemma BlockLiesOnEdge(i: int, source: int, target: int)
    requires 0 < target <= source && 0 <= i < target
    ensures 0 <= BlockStart(i, source, target) < BlockEnd(i, source, target) <= source
  {
    hide BlockStart;
    BlocksSpanTheEdge(source, target);
    BlockStartsIncrease(0, i, source, target);
    BlockStartsIncrease(i + 1, target, source, target);
    BlocksAreNonEmpty(i, source, target);
  }

  lemma BlocksNeedNoWidening(source: int, target: int, s: int, i: int)
    requires 0 < target <= source
    ensures BlockEnd(i, source, target) == BlockStart(i + 1, source, target)
    ensures InBlock(s, i, source, target) <==> 0 <= i < target && BlockStart(i, source, target) <= s < BlockEnd(i, source, target)
  {
    hide BlockStart;
    BlocksAreNonEmpty(i, source, target);
  }

  lemma FeedsByEdge(image: Image, w: int, h: int, sx: int, sy: int, x: int, y: int)
    requires 0 < w <= image.width && 0 < h <= image.height
    ensures Feeds(image, w, h, sx, sy, x, y) <==> InBlock(sx, x, image.width, w) && InBlock(sy, y, image.height, h)
  {
    hide BlockStart, BlockEnd, InBlock;
    BlocksNeedNoWidening(image.width, w, sx, x);
    BlocksNeedNoWidening(image.height, h, sy, y);
  }

  /** Every source pixel feeds exactly one target pixel. */
  lemma SourceIsTiled(image: Image, maxDimension: int, sx: int, sy: int)
    requires Shrinks(image, maxDimension) && 0 <= sx < image.width && 0 <= sy < image.height
    ensures var w, h := TargetWidth(image, maxDimension), TargetHeight(image, maxDimension);
            && 0 < w && 0 < h
            && (exists x, y :: Feeds(image, w, h, sx, sy, x, y))
            && (forall x, y, u, v :: Feeds(image, w, h, sx, sy, x, y) && Feeds(image, w, h, sx, sy, u, v) ==> x == u && y == v)
  {
    hide TargetWidth, TargetHeight, Feeds, InBlock;
    TargetSize(image, maxDimension);
    var w, h := TargetWidth(image, maxDimension), TargetHeight(image, maxDimension);
    BlocksTile(sx, image.width, w);
    BlocksTile(sy, image.height, h);
    var x :| InBlock(sx, x, image.width, w);
    var y :| InBlock(sy, y, image.height, h);
    FeedsByEdge(image, w, h, sx, sy, x, y);
    forall x, y, u, v | Feeds(image, w, h, sx, sy, x, y) && Feeds(image, w, h, sx, sy, u, v) ensures x == u && y == v {
      FeedsByEdge(image, w, h, sx, sy, x, y);
      FeedsByEdge(image, w, h, sx, sy, u, v);
    }
  }
}
