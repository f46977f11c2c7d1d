/** How phase1_d2c_remap.c recovers the page width and the height of a 2D block.

    The tiler driver reports only what it allocated: a height rounded up to whole tiles and a
    stride.  The caller supplies the length in bytes.  From these the code derives an interval of
    possible page widths, takes its lower end, and recomputes height, stride and width from it. */
module WidthInference {

  const PAGE_SIZE: nat := 4096

  datatype Format = Bit8 | Bit16 | Bit32 | Page | Invalid

  /** tiler_block_info; `len` and the area share storage in C and are kept apart here. */
  datatype Block = Block(fmt: Format, ssptr: nat, len: nat, width: nat, height: nat, stride: nat)

  /** def_bpp */
  function BytesPerPixel(fmt: Format): nat {
    if fmt == Bit32 then 4 else if fmt == Bit16 then 2 else 1
  }

  /** def_stride: the mask keeps whole pages. */
  function PageStride(width: nat): nat {
    (PAGE_SIZE - 1 + width) / PAGE_SIZE * PAGE_SIZE
  }

  /** def_size */
  function Size(b: Block): nat {
    if b.fmt == Page then b.len else b.height * PageStride(b.width * BytesPerPixel(b.fmt))
  }

  /** How many rows rounding can add to the height of a block. */
  function Slack(fmt: Format): nat {
    if fmt == Bit8 then 63 else 31
  }

  /** How many rows the driver rounds a height up to a multiple of. */
  function TileRows(fmt: Format): nat {
    if fmt == Bit8 then 64 else 32
  }

  function CeilDiv(a: nat, b: nat): nat
    requires b > 0
  {
    (a + b - 1) / b
  }

  /** min_page_width and max_page_width after both clamps. */
  datatype Bounds = Bounds(min: int, max: int)

  function PageWidthBounds(b: Block, length: nat): Bounds
    requires b.height > Slack(b.fmt)
  {
    var maxAlloc := b.height * PAGE_SIZE;
    var minAlloc := maxAlloc - Slack(b.fmt) * PAGE_SIZE;
    var limit := b.stride / PAGE_SIZE;
    var floor := if b.fmt == Bit8 then limit else limit - 1;
    var min := CeilDiv(length, maxAlloc);
    var max := length / minAlloc;
    Bounds(if min < floor then floor else min, if max > limit then limit else max)
  }

  /** The arithmetic for a 2D block needs some length and more rows than a tile can add. */
  predicate Measurable(b: Block, length: nat) {
    b.fmt != Page ==> b.height > Slack(b.fmt) && length > 0
  }

  /** What the loop body leaves in the block. */
  function Infer(b: Block, length: nat): Block
    requires Measurable(b, length)
  {
    if b.fmt == Page then b.(len := length)
    else
      MinPositive(b, length);
      Resized(b, length, PageWidthBounds(b, length).min)
  }

  /** The block with rows of `w` pages. */
  function Resized(b: Block, length: nat, w: nat): Block
    requires w > 0
  {
    b.(height := length / PAGE_SIZE / w,
    stride := PAGE_SIZE * w,
    width := PAGE_SIZE * w / BytesPerPixel(b.fmt))
  }

  lemma MinPositive(b: Block, length: nat)
    requires b.height > Slack(b.fmt) && length > 0
    ensures PageWidthBounds(b, length).min >= 1
  {
  }

  // ----- arithmetic -----

  lemma CeilDivLeast(a: nat, b: nat, q: nat)
    requires b > 0
    ensures CeilDiv(a, b) <= q <==> a <= b * q
  {
    var c := CeilDiv(a, b);
    assert b * c + (a + b - 1) % b == a + b - 1;
    if c <= q {
      Scale(b, c, q);
    } else {
      Scale(b, q + 1, c);
      assert b * (q + 1) == b * q + b;
    }
  }

  lemma Scale(b: nat, x: nat, y: nat)
    requires x <= y
    ensures b * x <= b * y
  {
  }

  lemma DivGreatest(a: nat, b: nat, q: nat)
    requires b > 0
    ensures q <= a / b <==> b * q <= a
  {
    var d := a / b;
    if q <= d {
    } else {
      assert b * (d + 1) == b * d + b;
    }
  }

  // ----- what the interval means -----

  /** A page width that fits all that is known: a height between the allocated one and one tile
      less accounts for the length, and the allocation has at most that many pages to spare. */
  ghost predicate Feasible(b: Block, length: nat, w: nat) {
    && (b.height - TileRows(b.fmt) + 1) * w * PAGE_SIZE <= length <= b.height * w * PAGE_SIZE
    && w <= b.stride / PAGE_SIZE <= w + (if b.fmt == Bit8 then 0 else 1)
  }

  /** The interval holds exactly the feasible widths, so the code picks the smallest of them and
      warns when there is another one. */
  lemma BoundsExact(b: Block, length: nat, w: nat)
    requires b.height > Slack(b.fmt)
    ensures var i := PageWidthBounds(b, length);
            i.min <= w <= i.max <==> Feasible(b, length, w)
  {
    var maxAlloc := b.height * PAGE_SIZE;
    var minAlloc := (b.height - Slack(b.fmt)) * PAGE_SIZE;
    CeilDivLeast(length, maxAlloc, w);
    DivGreatest(length, minAlloc, w);
    assert maxAlloc * w == b.height * w * PAGE_SIZE;
    assert minAlloc * w == (b.height - Slack(b.fmt)) * w * PAGE_SIZE;
  }

  /** The code's own check that the interval is not empty fires exactly when no width is feasible. */
  lemma CheckExact(b: Block, length: nat)
    requires b.height > Slack(b.fmt)
    ensures var i := PageWidthBounds(b, length);
            i.min <= i.max <==> exists w: nat :: Feasible(b, length, w)
  {
    var i := PageWidthBounds(b, length);
    if i.min <= i.max {
      BoundsExact(b, length, i.min);
    }
    if w: nat :| Feasible(b, length, w) {
      BoundsExact(b, length, w);
    }
  }

  lemma MinAtMost(b: Block, length: nat, q: nat)
    requires b.height > Slack(b.fmt)
    ensures var floor := b.stride / PAGE_SIZE - if b.fmt == Bit8 then 0 else 1;
            PageWidthBounds(b, length).min <= q <==> length <= b.height * q * PAGE_SIZE && floor <= q
  {
    CeilDivLeast(length, b.height * PAGE_SIZE, q);
  }

  // ----- when the true width is recovered -----

  /** The driver's view of a 2D block of `h` rows, each `w` pages wide. */
  ghost predicate Describes(b: Block, length: nat, h: nat, w: nat) {
    && b.fmt != Page
    && h > 0 && w > 0 && length == h * w * PAGE_SIZE
    && h <= b.height < h + TileRows(b.fmt) && b.height >= TileRows(b.fmt)
    && w <= b.stride / PAGE_SIZE <= w + (if b.fmt == Bit8 then 0 else 1)
  }

  ghost predicate Recovers(b: Block, length: nat, h: nat, w: nat)
    requires Describes(b, length, h, w)
  {
    var r := Infer(b, length);
    r.height == h && r.stride == PAGE_SIZE * w
  }

  /** The true width is never clamped away, so the consistency assertion cannot fire. */
  lemma TrueWidthInBounds(b: Block, length: nat, h: nat, w: nat)
    requires Describes(b, length, h, w)
    ensures Feasible(b, length, w)
    ensures var i := PageWidthBounds(b, length); i.min <= w <= i.max
  {
    RowsMonotone(b.height - Slack(b.fmt), h, w);
    RowsMonotone(h, b.height, w);
    BoundsExact(b, length, w);
  }

  lemma RowsMonotone(h: nat, k: nat, w: nat)
    requires h <= k
    ensures h * w * PAGE_SIZE <= k * w * PAGE_SIZE
  {
  }

  /** One page less would also do exactly when the rounded-up rows make up for it. */
  lemma NarrowerFits(h: nat, w: nat, height: nat)
    requires h <= height && w > 0
    ensures h * w * PAGE_SIZE <= height * (w - 1) * PAGE_SIZE <==> height <= w * (height - h)
  {
  }

  /** Exactly when inference succeeds.  When it does not, the interval has two members, so the
      code has issued its warning, and the width taken is one page too small. */
  lemma RecoveryExact(b: Block, length: nat, h: nat, w: nat)
    requires Describes(b, length, h, w)
    ensures Recovers(b, length, h, w) <==>
            b.fmt == Bit8 || b.stride / PAGE_SIZE == w + 1 || w * (b.height - h) < b.height
    ensures !Recovers(b, length, h, w) ==> PageWidthBounds(b, length) == Bounds(w - 1, w)
  {
    TrueWidthInBounds(b, length, h, w);
    MinAtMost(b, length, w - 1);
    NarrowerFits(h, w, b.height);
    RecoversIffMin(b, length, h, w);
    MinMaxNear(b, length, w);
  }

  lemma MinMaxNear(b: Block, length: nat, w: nat)
    requires b.height > Slack(b.fmt) && w > 0
    requires w <= b.stride / PAGE_SIZE <= w + (if b.fmt == Bit8 then 0 else 1)
    ensures var i := PageWidthBounds(b, length);
            i.min >= w - 1 && (b.stride / PAGE_SIZE == w ==> i.max <= w)
  {
  }

  lemma RecoversIffMin(b: Block, length: nat, h: nat, w: nat)
    requires Describes(b, length, h, w)
    ensures Recovers(b, length, h, w) <==> PageWidthBounds(b, length).min == w
  {
    MinPositive(b, length);
    Quotient(h, w);
  }

  lemma Quotient(h: nat, w: nat)
    requires w > 0
    ensures h * w * PAGE_SIZE / PAGE_SIZE / w == h
  {
    DivGreatest(h * w, w, h);
    DivGreatest(h * w, w, h + 1);
  }

  // ----- the size of an inferred block -----

  /** The length that goes unmapped: none in page mode, and otherwise the pages that do not fill
      a whole row of the chosen width. */
  ghost function Shortfall(b: Block, length: nat): nat
    requires Measurable(b, length)
  {
    if b.fmt == Page then 0
    else
      MinPositive(b, length);
      length / PAGE_SIZE % PageWidthBounds(b, length).min * PAGE_SIZE
  }

  lemma SizeLaw(b: Block, length: nat)
    requires length % PAGE_SIZE == 0
    requires Measurable(b, length)
    ensures Size(Infer(b, length)) + Shortfall(b, length) == length
    ensures b.fmt != Page ==> Shortfall(b, length) < Infer(b, length).stride
  {
    if b.fmt != Page {
      MinPositive(b, length);
      var w, pages := PageWidthBounds(b, length).min, length / PAGE_SIZE;
      InferredSize(b, length);
      RowsAndRest(pages, w);
    }
  }

  lemma RowsAndRest(pages: nat, w: nat)
    requires w > 0
    ensures pages / w * (PAGE_SIZE * w) + pages % w * PAGE_SIZE == pages * PAGE_SIZE
    ensures pages % w * PAGE_SIZE < PAGE_SIZE * w
  {
  }

  /** Recovering the true width also recovers the requested length to the byte. */
  lemma RecoveredSize(b: Block, length: nat, h: nat, w: nat)
    requires Describes(b, length, h, w) && Recovers(b, length, h, w)
    ensures Size(Infer(b, length)) == length
  {
    InferredSize(b, length);
    RowBytes(h, w);
  }

  lemma RowBytes(h: nat, w: nat)
    ensures h * (PAGE_SIZE * w) == h * w * PAGE_SIZE
  {
  }

  lemma InferredSize(b: Block, length: nat)
    requires b.fmt != Page && b.height > Slack(b.fmt) && length > 0
    ensures var r := Infer(b, length);
            r.fmt == b.fmt && r.stride == PAGE_SIZE * PageWidthBounds(b, length).min && Size(r) == r.height * r.stride
  {
    MinPositive(b, length);
    var bpp, w := BytesPerPixel(b.fmt), PageWidthBounds(b, length).min;
    WholePages(w, bpp);
  }

  /** What becomes of each field.  The address and the format stay; in page mode only the length is
      filled in.  Otherwise the stride is the smallest feasible one, the height is the number of
      whole rows of that stride, and the width is the number of pixels that fill one row. */
  lemma InferredBlock(b: Block, length: nat)
    requires Measurable(b, length)
    ensures var r := Infer(b, length);
            && r.ssptr == b.ssptr && r.fmt == b.fmt
            && (b.fmt == Page ==> r == b.(len := length))
            && (b.fmt == Bit8 || b.fmt == Invalid ==> r.width == r.stride)
            && (b.fmt == Bit16 ==> 2 * r.width == r.stride)
            && (b.fmt == Bit32 ==> 4 * r.width == r.stride)
            && (b.fmt != Page ==> r.len == b.len && r.height * r.stride <= length < (r.height + 1) * r.stride)
    ensures b.fmt != Page ==> forall w: nat :: Feasible(b, length, w) ==>
              var r := Infer(b, length); r.stride <= 4096 * w && Feasible(b, length, r.stride / 4096)
  {
    InferredFields(b, length);
    if b.fmt != Page {
      var w := PageWidthBounds(b, length).min;
      forall v: nat | Feasible(b, length, v) ensures w <= v && Feasible(b, length, w) {
        LeastFeasible(b, length, v);
      }
    }
  }

  lemma InferredFields(b: Block, length: nat)
    requires Measurable(b, length)
    ensures var r := Infer(b, length);
            && r.ssptr == b.ssptr && r.fmt == b.fmt
            && (b.fmt == Page ==> r == b.(len := length))
            && (b.fmt != Page ==> r.width * BytesPerPixel(b.fmt) == r.stride == PAGE_SIZE * PageWidthBounds(b, length).min)
            && (b.fmt != Page ==> r.len == b.len && r.height * r.stride <= length < (r.height + 1) * r.stride)
  {
    if b.fmt != Page {
      var w := PageWidthBounds(b, length).min;
      MinPositive(b, length);
      EvenPixels(w, BytesPerPixel(b.fmt));
      RowsBracket(length, w);
    }
  }

  lemma LeastFeasible(b: Block, length: nat, v: nat)
    requires b.height > Slack(b.fmt) && length > 0 && Feasible(b, length, v)
    ensures var w := PageWidthBounds(b, length).min; 0 < w <= v && Feasible(b, length, w)
  {
    MinPositive(b, length);
    BoundsExact(b, length, v);
    BoundsExact(b, length, PageWidthBounds(b, length).min);
  }

  lemma RowsBracket(length: nat, w: nat)
    requires w > 0
    ensures var rows := length / PAGE_SIZE / w;
            rows * (PAGE_SIZE * w) <= length < (rows + 1) * (PAGE_SIZE * w)
  {
    var pages := length / PAGE_SIZE;
    RowsAndRest(pages, w);
    assert pages % w + 1 <= w;
    Scale(PAGE_SIZE, pages % w + 1, w);
    assert (pages / w + 1) * (PAGE_SIZE * w) == pages / w * (PAGE_SIZE * w) + PAGE_SIZE * w;
  }

  /** def_stride rounds up to whole pages, and no further. */
  lemma PageStrideLeast(width: nat)
    ensures PageStride(width) % 4096 == 0 && width <= PageStride(width) < width + 4096
  {
  }

  lemma WholePages(w: nat, bpp: nat)
    requires bpp == 1 || bpp == 2 || bpp == 4
    ensures PAGE_SIZE * w / bpp * bpp == PAGE_SIZE * w
    ensures PageStride(PAGE_SIZE * w) == PAGE_SIZE * w
  {
    EvenPixels(w, bpp);
    DivGreatest(PAGE_SIZE - 1 + PAGE_SIZE * w, PAGE_SIZE, w);
    DivGreatest(PAGE_SIZE - 1 + PAGE_SIZE * w, PAGE_SIZE, w + 1);
  }

  lemma EvenPixels(w: nat, bpp: nat)
    requires bpp == 1 || bpp == 2 || bpp == 4
    ensures PAGE_SIZE * w / bpp * bpp == PAGE_SIZE * w
  {
    var q := PAGE_SIZE / bpp * w;
    assert PAGE_SIZE * w == bpp * q;
    DivGreatest(bpp * q, bpp, q);
    DivGreatest(bpp * q, bpp, q + 1);
  }

  method ComputeBounds(b: Block, length: nat) returns (minPageWidth: int, maxPageWidth: int)
    requires b.height > Slack(b.fmt)
    ensures Bounds(minPageWidth, maxPageWidth) == PageWidthBounds(b, length)
  {
    var maxAllocSize := b.height * PAGE_SIZE;
    var minAllocSize := maxAllocSize - Slack(b.fmt) * PAGE_SIZE;
    minPageWidth := CeilDiv(length, maxAllocSize);
    maxPageWidth := length / minAllocSize;
    var limit: int := b.stride / PAGE_SIZE;
    if maxPageWidth > limit {
      maxPageWidth := limit;
    }
    limit := limit - if b.fmt == Bit8 then 0 else 1;
    if minPageWidth < limit {
      minPageWidth := limit;
    }
  }

  /** The part of the loop body that deals with a 2D block. */
  method InferArea(b: Block, length: nat) returns (r: Block)
    requires b.fmt != Page && Measurable(b, length)
    ensures r == Infer(b, length)
  {
    var minPageWidth, maxPageWidth := ComputeBounds(b, length);
    MinPositive(b, length);
    r := b.(height := length / PAGE_SIZE / minPageWidth);
    r := r.(stride := PAGE_SIZE * minPageWidth);
    r := r.(width := r.stride / BytesPerPixel(r.fmt));
  }

  /** The block as the loop body leaves it. */
  method InferBlock(b: Block, length: nat) returns (r: Block)
    requires Measurable(b, length)
    ensures r == Infer(b, length)
    ensures r.ssptr == b.ssptr && r.fmt == b.fmt
    ensures length % 4096 == 0 ==> Size(r) + Shortfall(b, length) == length
    ensures b.fmt == Page ==> r == b.(len := length)
    ensures b.fmt == Bit8 || b.fmt == Invalid ==> r.width == r.stride
    ensures b.fmt == Bit16 ==> 2 * r.width == r.stride
    ensures b.fmt == Bit32 ==> 4 * r.width == r.stride
    ensures b.fmt != Page ==> r.height * r.stride <= length < (r.height + 1) * r.stride
    ensures b.fmt != Page ==> forall w: nat :: Feasible(b, length, w) ==> r.stride <= 4096 * w
  {
    r := b;
    if b.fmt == Page {
      r := r.(len := length);
    } else {
      r := InferArea(b, length);
    }
    InferredBlock(b, length);
    if length % PAGE_SIZE == 0 {
      SizeLaw(b, length);
    }
  }

  // ----- the documented limit -----

  /** A buffer of `width` by `h` pixels as the driver reports it: the height is rounded up to
      tiles of 32 rows, and a row of pages is at most eight pages. */
  ghost predicate Allocated(b: Block, length: nat, width: nat, h: nat, w: nat) {
    && (b.fmt == Bit16 || b.fmt == Bit32)
    && Describes(b, length, h, w)
    && width > 0 && w == CeilDiv(width * BytesPerPixel(b.fmt), PAGE_SIZE) <= 8
    && b.height == CeilDiv(h, 32) * 32
  }

  /** Seven full pages and one more pixel: the narrowest row that takes eight pages. */
  function EightPages(fmt: Format): (pixels: nat)
    ensures fmt == Bit16 ==> pixels == 14337
    ensures fmt == Bit32 ==> pixels == 7169
  {
    7 * PAGE_SIZE / BytesPerPixel(fmt) + 1
  }

  /** Failures are confined to buffers at least as wide, for their height, as 14337 by 196 pixels
      in 16-bit mode and 7169 by 196 in 32-bit mode. */
  lemma FailuresAreWide(b: Block, length: nat, width: nat, h: nat, w: nat)
    requires Allocated(b, length, width, h, w) && !Recovers(b, length, h, w)
    ensures width * 196 >= EightPages(b.fmt) * h
    ensures h <= 196 && (width * 196 < EightPages(b.fmt) * h + 2 ==> width == EightPages(b.fmt) && h == 196)
  {
    RecoveryExact(b, length, h, w);
    var tiles, spare := CeilDiv(h, 32), b.height - h;
    CeilDivLeast(width * BytesPerPixel(b.fmt), PAGE_SIZE, w - 1);
    TilesCover(h, spare);
    assert b.height <= w * spare;
    WideForHeight(tiles, spare, w, h);
    if b.fmt == Bit16 {
      assert width > 2048 * (w - 1);
      WideRatio(2048, width, h, w);
    } else {
      assert width > 1024 * (w - 1);
      WideRatio(1024, width, h, w);
    }
  }

  lemma TilesCover(h: nat, spare: nat)
    requires h + spare == CeilDiv(h, 32) * 32
    ensures spare <= 31
  {
  }

  lemma WideRatio(pixels: nat, width: nat, h: nat, w: nat)
    requires pixels == 2048 || pixels == 1024
    requires w > 1 && h <= 196 && (h == 196 ==> w == 8) && 7 * h <= 196 * (w - 1) && width > pixels * (w - 1)
    ensures width * 196 >= (7 * pixels + 1) * h
    ensures width * 196 < (7 * pixels + 1) * h + 2 ==> width == 7 * pixels + 1 && h == 196
  {
  }

  /** `tiles * 32` rows are allocated, `spare` of them beyond the `h` in use. */
  lemma WideForHeight(tiles: nat, spare: nat, w: nat, h: nat)
    requires 0 < w <= 8 && 0 < h && h + spare == tiles * 32 && spare <= 31 && tiles * 32 <= w * spare
    ensures w > 1 && h <= 196 && (h == 196 ==> w == 8)
    ensures 7 * h <= 196 * (w - 1)
  {
  }

  /** How the documented ratios compare with the true ones, 14337/196 and 7169/196. */
  lemma Margins(width: nat, h: nat)
    requires 0 < h <= 196
    ensures width * 1000 <= 36574 * h ==> width * 196 < 7169 * h
    ensures width * 1000 <= 73148 * h ==> width * 196 < 14337 * h + 2
  {
  }

  /** The header excludes 16-bit buffers wider than 73.148 times their height and 32-bit buffers
      wider than 36.574 times.  The 32-bit bound is safe.  The 16-bit bound is rounded up past the
      true one: within it, inference fails for a single geometry. */
  lemma DocumentedLimit(b: Block, length: nat, width: nat, h: nat, w: nat)
    requires Allocated(b, length, width, h, w)
    requires width * 1000 <= (if b.fmt == Bit16 then 73148 else 36574) * h
    ensures Recovers(b, length, h, w) <==>
            !(b.fmt == Bit16 && width == 14337 && h == 196 && b.stride / PAGE_SIZE == 8)
  {
    RecoveryExact(b, length, h, w);
    if !Recovers(b, length, h, w) {
      FailuresAreWide(b, length, width, h, w);
      Margins(width, h);
    } else if b.fmt == Bit16 && width == 14337 && h == 196 {
    }
  }

  lemma DocumentedLimitFails()
    ensures var b := Block(Bit16, 0, 0, 0, 224, 8 * PAGE_SIZE);
            var length := 196 * 8 * PAGE_SIZE;
            && Allocated(b, length, 14337, 196, 8)
            && 14337 * 1000 <= 73148 * 196
            && !Recovers(b, length, 196, 8)
  {
  }
}
