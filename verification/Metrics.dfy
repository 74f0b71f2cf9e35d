/** Luma planes and the visual metrics on them, over exact reals. */
module Metrics {
  import opened Prelude
  import opened Arithmetic

  type Byte = x: int | 0 <= x < 256
  datatype Rgba = Rgba(r: Byte, g: Byte, b: Byte, a: Byte)

  /** A full-resolution picture, as rows of pixels. */
  datatype RgbaImage = RgbaImage(width: nat, height: nat, rows: seq<seq<Rgba>>) {
    predicate Valid() {
      |rows| == height && forall y | 0 <= y < height :: |rows[y]| == width
    }
  }

  datatype Rect = Rect(x: nat, y: nat, width: nat, height: nat)

  /** A downsampled plane: row-major samples. */
  datatype LumaPlane = LumaPlane(width: nat, height: nat, samples: seq<real>) {
    predicate Valid() { |samples| == width * height }
    predicate SameSize(other: LumaPlane) { width == other.width && height == other.height }
  }

  function Luma(p: Rgba): (l: real)
    ensures 0.0 <= l <= 255.0
  {
    0.299 * p.r as real + 0.587 * p.g as real + 0.114 * p.b as real
  }

  function CeilDiv(a: nat, b: nat): nat
    requires b > 0
  {
    (a + b - 1) / b
  }

  // ---------------------------------------------------------- downsampling

  /** Luma of row `y` over columns `[x0, x1)`. */
  function RowSum(img: RgbaImage, y: nat, x0: nat, x1: nat): real
    requires img.Valid() && y < img.height && x1 <= img.width
  {
    if x1 <= x0 then 0.0 else RowSum(img, y, x0, x1 - 1) + Luma(img.rows[y][x1 - 1])
  }

  /** Luma of the rectangle `[x0, x1) x [y0, y1)`. */
  function AreaSum(img: RgbaImage, x0: nat, x1: nat, y0: nat, y1: nat): real
    requires img.Valid() && y1 <= img.height && x1 <= img.width
  {
    if y1 <= y0 then 0.0 else AreaSum(img, x0, x1, y0, y1 - 1) + RowSum(img, y1 - 1, x0, x1)
  }

  function BlockSize(sw: nat, target: nat): nat
    requires target > 0
  {
    Max(CeilDiv(sw, target), 1)
  }

  /** The edge of block `i` along an axis of length `n`. */
  function Edge(i: nat, block: nat, n: nat): nat { Min(i * block, n) }

  /** How many positions block `i` covers. */
  function Span(i: nat, block: nat, n: nat): nat { Monus(Edge(i + 1, block, n), Edge(i, block, n)) }

  function BlockArea(img: RgbaImage, block: nat, col: nat, row: nat): nat {
    Span(col, block, img.width) * Span(row, block, img.height)
  }

  function BlockSum(img: RgbaImage, block: nat, col: nat, row: nat): real
    requires img.Valid()
  {
    AreaSum(img, Edge(col, block, img.width), Edge(col + 1, block, img.width),
            Edge(row, block, img.height), Edge(row + 1, block, img.height))
  }

  function BlockAverage(img: RgbaImage, block: nat, col: nat, row: nat): real
    requires img.Valid() && block > 0
  {
    Mean(BlockSum(img, block, col, row), BlockArea(img, block, col, row))
  }

  function Mean(sum: real, n: nat): real { if n > 0 then sum / n as real else 0.0 }

  function Scaled(n: nat, mean: real): real { n as real * mean }

  const NO_PLANE := LumaPlane(0, 0, [])

  /** What `downsample_luma` computes. */
  function Downsampled(img: RgbaImage, target: nat): LumaPlane
    requires img.Valid()
  {
    if img.width == 0 || img.height == 0 || target == 0 then NO_PLANE
    else
      var block := BlockSize(img.width, target);
      var w, h := CeilDiv(img.width, block), CeilDiv(img.height, block);
      LumaPlane(w, h, AllBlocks(img, block, w, w * h))
  }

  /** The averages of the first `n` blocks in row-major order. */
  function AllBlocks(img: RgbaImage, block: nat, w: nat, n: nat): (s: seq<real>)
    requires img.Valid() && block > 0 && w > 0
    ensures |s| == n
    ensures forall k | 0 <= k < n :: s[k] == BlockAverage(img, block, k % w, k / w)
  {
    if n == 0 then [] else AllBlocks(img, block, w, n - 1) + [BlockAverage(img, block, (n - 1) % w, (n - 1) / w)]
  }

  lemma CeilBounds(n: nat, block: nat)
    requires block > 0
    ensures n <= CeilDiv(n, block) * block < n + block
  {
    DivBounds(n + block - 1, block);
  }

  lemma EdgeStep(i: nat, block: nat, n: nat)
    requires block > 0 && i < CeilDiv(n, block)
    ensures Edge(i, block, n) == i * block < Edge(i + 1, block, n) == Min(i * block + block, n)
    ensures Span(i, block, n) > 0
  {
    CeilBounds(n, block);
    MulMono(i + 1, CeilDiv(n, block), block);
  }

  lemma EdgeLast(block: nat, n: nat)
    requires block > 0
    ensures Edge(CeilDiv(n, block), block, n) == n
  {
    CeilBounds(n, block);
  }

  /** The plane is never wider than asked for. */
  lemma PlaneWidth(sw: nat, target: nat)
    requires sw > 0 && target > 0
    ensures 1 <= CeilDiv(sw, BlockSize(sw, target)) <= target
  {
    var b := BlockSize(sw, target);
    CeilBounds(sw, target);
    CeilBounds(sw, b);
    var c := CeilDiv(sw, b);
    assert sw <= target * b;
    if target < c {
      MulMono(target + 1, c, b);
    }
  }

  lemma {:induction false} RowSplit(img: RgbaImage, y: nat, x0: nat, x1: nat, x2: nat)
    requires img.Valid() && y < img.height && x0 <= x1 <= x2 <= img.width
    ensures RowSum(img, y, x0, x2) == RowSum(img, y, x0, x1) + RowSum(img, y, x1, x2)
  {
    if x1 < x2 {
      RowSplit(img, y, x0, x1, x2 - 1);
    }
  }

  lemma {:induction false} AreaSplitX(img: RgbaImage, x0: nat, x1: nat, x2: nat, y0: nat, y1: nat)
    requires img.Valid() && y1 <= img.height && x0 <= x1 <= x2 <= img.width
    ensures AreaSum(img, x0, x2, y0, y1) == AreaSum(img, x0, x1, y0, y1) + AreaSum(img, x1, x2, y0, y1)
  {
    if y0 < y1 {
      AreaSplitX(img, x0, x1, x2, y0, y1 - 1);
      RowSplit(img, y1 - 1, x0, x1, x2);
    }
  }

  lemma {:induction false} AreaSplitY(img: RgbaImage, x0: nat, x1: nat, y0: nat, y1: nat, y2: nat)
    requires img.Valid() && y0 <= y1 <= y2 <= img.height && x1 <= img.width
    ensures AreaSum(img, x0, x1, y0, y2) == AreaSum(img, x0, x1, y0, y1) + AreaSum(img, x0, x1, y1, y2)
  {
    if y1 < y2 {
      AreaSplitY(img, x0, x1, y0, y1, y2 - 1);
    }
  }

  lemma {:induction false} RowBounds(img: RgbaImage, y: nat, x0: nat, x1: nat)
    requires img.Valid() && y < img.height && x0 <= x1 <= img.width
    ensures 0.0 <= RowSum(img, y, x0, x1) <= 255.0 * (x1 - x0) as real
  {
    if x0 < x1 {
      RowBounds(img, y, x0, x1 - 1);
    }
  }

  lemma {:induction false} AreaBounds(img: RgbaImage, x0: nat, x1: nat, y0: nat, y1: nat)
    requires img.Valid() && y0 <= y1 <= img.height && x0 <= x1 <= img.width
    ensures 0.0 <= AreaSum(img, x0, x1, y0, y1) <= 255.0 * ((x1 - x0) * (y1 - y0)) as real
  {
    if y0 < y1 {
      AreaBounds(img, x0, x1, y0, y1 - 1);
      RowBounds(img, y1 - 1, x0, x1);
      assert (x1 - x0) * (y1 - y0) == (x1 - x0) * (y1 - 1 - y0) + (x1 - x0);
    } else {
      assert (x1 - x0) * (y1 - y0) == 0;
    }
  }

  /** A sample times the number of pixels behind it. */
  function WeightedSample(img: RgbaImage, block: nat, col: nat, row: nat): real
    requires img.Valid() && block > 0
  {
    Scaled(BlockArea(img, block, col, row), BlockAverage(img, block, col, row))
  }

  lemma BlockBounds(img: RgbaImage, block: nat, col: nat, row: nat)
    requires img.Valid() && block > 0
    requires col < CeilDiv(img.width, block) && row < CeilDiv(img.height, block)
    ensures BlockArea(img, block, col, row) > 0
    ensures 0.0 <= BlockSum(img, block, col, row) <= 255.0 * BlockArea(img, block, col, row) as real
  {
    EdgeStep(col, block, img.width);
    EdgeStep(row, block, img.height);
    MulMono(1, Span(col, block, img.width), Span(row, block, img.height));
    AreaBounds(img, Edge(col, block, img.width), Edge(col + 1, block, img.width),
               Edge(row, block, img.height), Edge(row + 1, block, img.height));
  }

  lemma MeanFacts(sum: real, n: nat)
    requires n > 0 && 0.0 <= sum <= 255.0 * n as real
    ensures Scaled(n, Mean(sum, n)) == sum
    ensures 0.0 <= Mean(sum, n) <= 255.0
  {
    RealQuotient(sum, n as real, 255.0);
  }

  lemma BlockFacts(img: RgbaImage, block: nat, col: nat, row: nat)
    requires img.Valid() && block > 0
    requires col < CeilDiv(img.width, block) && row < CeilDiv(img.height, block)
    ensures WeightedSample(img, block, col, row) == BlockSum(img, block, col, row)
    ensures 0.0 <= BlockAverage(img, block, col, row) <= 255.0
  {
    BlockBounds(img, block, col, row);
    MeanFacts(BlockSum(img, block, col, row), BlockArea(img, block, col, row));
  }

  /** Count-weighted samples of the first `n` blocks of block row `row`. */
  function WeightedRow(img: RgbaImage, block: nat, row: nat, n: nat): real
    requires img.Valid() && block > 0
  {
    if n == 0 then 0.0
    else
      WeightedRow(img, block, row, n - 1) + WeightedSample(img, block, n - 1, row)
  }

  function WeightedRows(img: RgbaImage, block: nat, w: nat, n: nat): real
    requires img.Valid() && block > 0
  {
    if n == 0 then 0.0 else WeightedRows(img, block, w, n - 1) + WeightedRow(img, block, n - 1, w)
  }

  lemma WeightedRowStep(img: RgbaImage, block: nat, row: nat, n: nat)
    requires img.Valid() && block > 0 && 0 < n <= CeilDiv(img.width, block) && row < CeilDiv(img.height, block)
    ensures WeightedRow(img, block, row, n) == WeightedRow(img, block, row, n - 1) + BlockSum(img, block, n - 1, row)
  {
    BlockFacts(img, block, n - 1, row);
  }

  lemma BlockExtends(img: RgbaImage, block: nat, row: nat, n: nat)
    requires img.Valid() && block > 0 && 0 < n <= CeilDiv(img.width, block)
    ensures var y0, y1 := Edge(row, block, img.height), Edge(row + 1, block, img.height);
            AreaSum(img, 0, Edge(n, block, img.width), y0, y1)
            == AreaSum(img, 0, Edge(n - 1, block, img.width), y0, y1) + BlockSum(img, block, n - 1, row)
  {
    EdgeStep(n - 1, block, img.width);
    AreaSplitX(img, 0, Edge(n - 1, block, img.width), Edge(n, block, img.width),
               Edge(row, block, img.height), Edge(row + 1, block, img.height));
  }

  lemma {:induction false} WeightedRowIsArea(img: RgbaImage, block: nat, row: nat, n: nat)
    requires img.Valid() && block > 0 && n <= CeilDiv(img.width, block) && row < CeilDiv(img.height, block)
    ensures WeightedRow(img, block, row, n)
         == AreaSum(img, 0, Edge(n, block, img.width), Edge(row, block, img.height), Edge(row + 1, block, img.height))
  {
    if n > 0 {
      WeightedRowIsArea(img, block, row, n - 1);
      WeightedRowStep(img, block, row, n);
      BlockExtends(img, block, row, n);
    } else {
      EmptyArea(img, 0, Edge(row, block, img.height), Edge(row + 1, block, img.height));
    }
  }

  lemma {:induction false} EmptyArea(img: RgbaImage, x: nat, y0: nat, y1: nat)
    requires img.Valid() && y1 <= img.height && x <= img.width
    ensures AreaSum(img, x, x, y0, y1) == 0.0
  {
    if y0 < y1 {
      EmptyArea(img, x, y0, y1 - 1);
    }
  }

  lemma {:induction false} WeightedRowsAreArea(img: RgbaImage, block: nat, n: nat)
    requires img.Valid() && block > 0 && n <= CeilDiv(img.height, block)
    ensures WeightedRows(img, block, CeilDiv(img.width, block), n)
         == AreaSum(img, 0, img.width, 0, Edge(n, block, img.height))
  {
    if n > 0 {
      WeightedRowsAreArea(img, block, n - 1);
      WeightedRowIsArea(img, block, n - 1, CeilDiv(img.width, block));
      EdgeLast(block, img.width);
      EdgeStep(n - 1, block, img.height);
      AreaSplitY(img, 0, img.width, 0, Edge(n - 1, block, img.height), Edge(n, block, img.height));
    }
  }

  /** The luma behind sample `k` of a plane `w` wide: it, times the number of pixels of its block. */
  function LumaBehind(img: RgbaImage, block: nat, w: nat, samples: seq<real>, k: nat): real
    requires img.Valid() && block > 0 && w > 0 && k < |samples|
  {
    Scaled(BlockArea(img, block, k % w, k / w), samples[k])
  }

  function PlaneLuma(img: RgbaImage, block: nat, w: nat, samples: seq<real>, n: nat): real
    requires img.Valid() && block > 0 && w > 0 && n <= |samples|
  {
    if n == 0 then 0.0 else PlaneLuma(img, block, w, samples, n - 1) + LumaBehind(img, block, w, samples, n - 1)
  }

  predicate IsAverages(img: RgbaImage, block: nat, w: nat, samples: seq<real>)
    requires img.Valid() && block > 0 && w > 0
  {
    forall k | 0 <= k < |samples| :: samples[k] == BlockAverage(img, block, k % w, k / w)
  }

  lemma LumaBehindBlock(img: RgbaImage, block: nat, w: nat, samples: seq<real>, row: nat, c: nat, k: nat)
    requires img.Valid() && block > 0 && c < w && k < |samples| && IsAverages(img, block, w, samples)
    requires k == row * w + c
    ensures LumaBehind(img, block, w, samples, k) == WeightedSample(img, block, c, row)
  {
    DivModUnique(w, row, c);
  }

  /** The samples from `start` on are those of block row `row`. */
  predicate RowSamples(img: RgbaImage, block: nat, w: nat, samples: seq<real>, row: nat, c: nat, start: nat)
    requires img.Valid() && block > 0 && w > 0 && start + c <= |samples|
  {
    forall i | 0 <= i < c :: LumaBehind(img, block, w, samples, start + i) == WeightedSample(img, block, i, row)
  }

  lemma RowOfSamples(img: RgbaImage, block: nat, w: nat, samples: seq<real>, row: nat, start: nat)
    requires img.Valid() && block > 0 && w > 0 && IsAverages(img, block, w, samples)
    requires start == row * w && start + w <= |samples|
    ensures RowSamples(img, block, w, samples, row, w, start)
  {
    forall i | 0 <= i < w
      ensures LumaBehind(img, block, w, samples, start + i) == WeightedSample(img, block, i, row)
    {
      LumaBehindBlock(img, block, w, samples, row, i, start + i);
    }
  }

  lemma {:induction false} PlaneLumaRow(
    img: RgbaImage, block: nat, w: nat, samples: seq<real>, row: nat, c: nat, start: nat)
    requires img.Valid() && block > 0 && w > 0 && start + c <= |samples|
    requires RowSamples(img, block, w, samples, row, c, start)
    ensures PlaneLuma(img, block, w, samples, start + c)
         == PlaneLuma(img, block, w, samples, start) + WeightedRow(img, block, row, c)
  {
    if c > 0 {
      PlaneLumaRow(img, block, w, samples, row, c - 1, start);
      assert LumaBehind(img, block, w, samples, start + (c - 1)) == WeightedSample(img, block, c - 1, row);
    }
  }

  lemma RowAdds(img: RgbaImage, block: nat, w: nat, samples: seq<real>, row: nat, start: nat)
    requires img.Valid() && block > 0 && w > 0 && IsAverages(img, block, w, samples)
    requires start == row * w && start + w <= |samples|
    ensures PlaneLuma(img, block, w, samples, start + w)
         == PlaneLuma(img, block, w, samples, start) + WeightedRow(img, block, row, w)
  {
    RowOfSamples(img, block, w, samples, row, start);
    PlaneLumaRow(img, block, w, samples, row, w, start);
  }

  lemma RowStart(row: nat, w: nat, n: nat)
    requires row > 0 && n == row * w
    ensures n >= w && n - w == (row - 1) * w
  {
    MulMono(1, row, w);
  }

  /** Sample by sample is block row by block row. */
  lemma {:induction false} PlaneLumaRows(img: RgbaImage, block: nat, w: nat, samples: seq<real>, row: nat, n: nat)
    requires img.Valid() && block > 0 && w > 0 && IsAverages(img, block, w, samples)
    requires n == row * w && n <= |samples|
    ensures PlaneLuma(img, block, w, samples, n) == WeightedRows(img, block, w, row)
  {
    if row > 0 {
      RowStart(row, w, n);
      PlaneLumaRows(img, block, w, samples, row - 1, n - w);
      RowAdds(img, block, w, samples, row - 1, n - w);
    }
  }

  lemma PlaneShape(img: RgbaImage, target: nat)
    requires img.Valid() && img.width > 0 && img.height > 0 && target > 0
    ensures var block, p := BlockSize(img.width, target), Downsampled(img, target);
            && p.width == CeilDiv(img.width, block) > 0 && p.height == CeilDiv(img.height, block)
            && |p.samples| == p.width * p.height && IsAverages(img, block, p.width, p.samples)
  {
  }

  /** The blocks partition the picture: weighted by their pixel counts, the
      plane's samples add up to the luma of the whole picture. */
  lemma DownsamplingConservesLuma(img: RgbaImage, target: nat)
    requires img.Valid() && img.width > 0 && img.height > 0 && target > 0
    ensures var block, p := BlockSize(img.width, target), Downsampled(img, target);
            p.width > 0 && PlaneLuma(img, block, p.width, p.samples, |p.samples|) == AreaSum(img, 0, img.width, 0, img.height)
  {
    PlaneShape(img, target);
    var p := Downsampled(img, target);
    SamplesAddUp(img, BlockSize(img.width, target), p.width, p.height, p.samples);
  }

  lemma SamplesAddUp(img: RgbaImage, block: nat, w: nat, h: nat, samples: seq<real>)
    requires img.Valid() && block > 0 && w == CeilDiv(img.width, block) > 0 && h == CeilDiv(img.height, block)
    requires |samples| == w * h && IsAverages(img, block, w, samples)
    ensures PlaneLuma(img, block, w, samples, |samples|) == AreaSum(img, 0, img.width, 0, img.height)
  {
    WeightedRowsAreArea(img, block, h);
    EdgeLast(block, img.height);
    PlaneLumaRows(img, block, w, samples, h, |samples|);
  }

  /** Along one axis a position lies in exactly one block: the one it divides to. */
  lemma PositionInOneBlock(n: nat, block: nat, x: nat, i: nat)
    requires block > 0 && x < n
    ensures Edge(i, block, n) <= x < Edge(i + 1, block, n) <==> i == x / block
    ensures x / block < CeilDiv(n, block)
  {
    DivBounds(x, block);
    CeilBounds(n, block);
    DivBelow(x, CeilDiv(n, block), block);
    if i * block <= x < i * block + block {
      SameBlock(i, x / block, block, x % block);
    }
  }

  /** The pixel is one of those that sample `k` of a plane `w` wide averages. */
  predicate Averages(img: RgbaImage, block: nat, w: nat, k: nat, x: nat, y: nat)
    requires block > 0 && w > 0
  {
    && Edge(k % w, block, img.width) <= x < Edge(k % w + 1, block, img.width)
    && Edge(k / w, block, img.height) <= y < Edge(k / w + 1, block, img.height)
  }

  lemma DivModEq(j: nat, w: nat, row: nat, col: nat)
    requires col < w
    ensures j % w == col && j / w == row <==> j == row * w + col
  {
    DivBounds(j, w);
    DivModUnique(w, row, col);
  }

  /** A pixel is averaged into the sample whose column and row it divides to, and no other. */
  lemma AveragesIff(img: RgbaImage, block: nat, w: nat, j: nat, x: nat, y: nat)
    requires block > 0 && w == CeilDiv(img.width, block) > 0 && x < img.width && y < img.height
    ensures Averages(img, block, w, j, x, y) <==> j == (y / block) * w + x / block
  {
    PositionInOneBlock(img.width, block, x, j % w);
    PositionInOneBlock(img.height, block, y, j / w);
    DivModEq(j, w, y / block, x / block);
  }

  lemma SampleIndex(row: nat, h: nat, col: nat, w: nat)
    requires row < h && col < w
    ensures row * w + col < w * h
  {
    MulMono(row + 1, h, w);
  }

  /** Every pixel is averaged into exactly one sample of the plane. */
  lemma PixelInOneSample(img: RgbaImage, target: nat, x: nat, y: nat) returns (k: nat)
    requires img.Valid() && target > 0 && x < img.width && y < img.height
    ensures var block, p := BlockSize(img.width, target), Downsampled(img, target);
            && p.width > 0 && k < |p.samples|
            && forall j | 0 <= j < |p.samples| :: Averages(img, block, p.width, j, x, y) <==> j == k
  {
    PlaneShape(img, target);
    var p := Downsampled(img, target);
    k := SampleOf(img, BlockSize(img.width, target), p.width, p.height, x, y);
  }

  lemma SampleOf(img: RgbaImage, block: nat, w: nat, h: nat, x: nat, y: nat) returns (k: nat)
    requires block > 0 && w == CeilDiv(img.width, block) > 0 && h == CeilDiv(img.height, block)
    requires x < img.width && y < img.height
    ensures k < w * h && forall j: nat :: Averages(img, block, w, j, x, y) <==> j == k
  {
    PositionInOneBlock(img.width, block, x, 0);
    PositionInOneBlock(img.height, block, y, 0);
    SampleIndex(y / block, h, x / block, w);
    k := (y / block) * w + x / block;
    forall j: nat
      ensures Averages(img, block, w, j, x, y) <==> j == k
    {
      AveragesIff(img, block, w, j, x, y);
    }
  }

  /** Blocks are square, as wide as it takes to fit the width into the target and no
      wider; and the plane has just the blocks the picture needs. */
  lemma PlaneSized(img: RgbaImage, target: nat)
    requires img.Valid() && img.width > 0 && img.height > 0 && target > 0
    ensures var block, p := BlockSize(img.width, target), Downsampled(img, target);
            && block > 0 && p.width > 0 && p.height > 0
            && (block - 1) * target < img.width <= block * target
            && (p.width - 1) * block < img.width <= p.width * block
            && (p.height - 1) * block < img.height <= p.height * block
  {
    PlaneShape(img, target);
    var block := BlockSize(img.width, target);
    CeilTight(img.width, target);
    CeilTight(img.width, block);
    CeilTight(img.height, block);
  }

  lemma CeilTight(n: nat, b: nat)
    requires n > 0 && b > 0
    ensures CeilDiv(n, b) > 0 && (CeilDiv(n, b) - 1) * b < n <= CeilDiv(n, b) * b
  {
    CeilBounds(n, b);
    var q := CeilDiv(n, b);
    assert (q - 1) * b == q * b - b;
    assert q != 0;
  }

  lemma SampleBounds(img: RgbaImage, block: nat, w: nat, h: nat, k: nat)
    requires img.Valid() && block > 0 && w > 0
    requires w == CeilDiv(img.width, block) && h == CeilDiv(img.height, block) && k < w * h
    ensures 0.0 <= BlockAverage(img, block, k % w, k / w) <= 255.0
  {
    DivBelow(k, h, w);
    BlockFacts(img, block, k % w, k / w);
  }

  /** The plane: never wider than the target, well formed, every sample a luma value. */
  lemma DownsampledPlane(img: RgbaImage, target: nat)
    requires img.Valid()
    ensures var p := Downsampled(img, target);
            && p.Valid() && p.width <= target
            && forall k | 0 <= k < |p.samples| :: 0.0 <= p.samples[k] <= 255.0
  {
    if img.width > 0 && img.height > 0 && target > 0 {
      PlaneWidth(img.width, target);
      var block := BlockSize(img.width, target);
      var w, h := CeilDiv(img.width, block), CeilDiv(img.height, block);
      var samples := AllBlocks(img, block, w, w * h);
      forall k | 0 <= k < |samples|
        ensures 0.0 <= samples[k] <= 255.0
      {
        SampleBounds(img, block, w, h, k);
      }
    }
  }

  /** Sum and count of one block, pixel by pixel. */
  method SumBlock(img: RgbaImage, x0: nat, x1: nat, y0: nat, y1: nat) returns (sum: real, count: nat)
    requires img.Valid() && x0 <= x1 <= img.width && y0 <= y1 <= img.height
    ensures sum == AreaSum(img, x0, x1, y0, y1) && count == (x1 - x0) * (y1 - y0)
  {
    sum, count := 0.0, 0;
    for y := y0 to y1
      invariant sum == AreaSum(img, x0, x1, y0, y)
      invariant count == (x1 - x0) * (y - y0)
    {
      for x := x0 to x1
        invariant sum == AreaSum(img, x0, x1, y0, y) + RowSum(img, y, x0, x)
        invariant count == (x1 - x0) * (y - y0) + (x - x0)
      {
        sum := sum + Luma(img.rows[y][x]);
        count := count + 1;
      }
      assert (x1 - x0) * (y + 1 - y0) == (x1 - x0) * (y - y0) + (x1 - x0);
    }
  }

  /** One sample of the plane: the loops over the block's pixels and the division. */
  method BlockSample(img: RgbaImage, block: nat, col: nat, row: nat) returns (sample: real)
    requires img.Valid() && block > 0
    requires col < CeilDiv(img.width, block) && row < CeilDiv(img.height, block)
    ensures sample == BlockAverage(img, block, col, row)
  {
    EdgeStep(col, block, img.width);
    EdgeStep(row, block, img.height);
    var x0, y0 := col * block, row * block;
    var sum, count := SumBlock(img, x0, Min(x0 + block, img.width), y0, Min(y0 + block, img.height));
    sample := if count > 0 then sum / count as real else 0.0;
  }

  method DownsampleLuma(img: RgbaImage, target: nat) returns (plane: LumaPlane)
    requires img.Valid()
    ensures plane == Downsampled(img, target)
  {
    var sw, sh := img.width, img.height;
    if sw == 0 || sh == 0 || target == 0 {
      return NO_PLANE;
    }
    var block := Max(CeilDiv(sw, target), 1);
    var width, height := CeilDiv(sw, block), CeilDiv(sh, block);
    PlaneWidth(sw, target);
    var samples := [];
    for row := 0 to height
      invariant samples == AllBlocks(img, block, width, row * width)
    {
      for col := 0 to width
        invariant samples == AllBlocks(img, block, width, row * width + col)
      {
        var sample := BlockSample(img, block, col, row);
        DivModUnique(width, row, col);
        samples := samples + [sample];
      }
      assert row * width + width == (row + 1) * width;
    }
    assert height * width == width * height;
    plane := LumaPlane(width, height, samples);
  }

  // ------------------------------------------------------- plane comparison

  datatype ChangeStats = ChangeStats(
    normalizedMeanDiff: real, changedSamples: nat, changedRatio: real, changedMeanDelta: real)

  const NO_CHANGE := ChangeStats(0.0, 0, 0.0, 0.0)

  predicate InMask(mask: Option<Rect>, x: nat, y: nat) {
    match mask
    case Some(r) => r.x <= x < r.x + r.width && r.y <= y < r.y + r.height
    case None => false
  }

  predicate Comparable(a: LumaPlane, b: LumaPlane) { a.Valid() && b.Valid() && a.SameSize(b) }

  /** Sample `k` counts: it is not under the mask. */
  predicate Seen(a: LumaPlane, mask: Option<Rect>, k: nat)
    requires a.Valid() && k < |a.samples|
  {
    a.width > 0 && !InMask(mask, k % a.width, k / a.width)
  }

  function Delta(a: LumaPlane, b: LumaPlane, k: nat): real
    requires Comparable(a, b) && k < |a.samples|
  {
    var d := a.samples[k] - b.samples[k];
    if d < 0.0 then -d else d
  }

  function SeenCount(a: LumaPlane, mask: Option<Rect>, n: nat): nat
    requires a.Valid() && n <= |a.samples|
  {
    if n == 0 then 0 else SeenCount(a, mask, n - 1) + (if Seen(a, mask, n - 1) then 1 else 0)
  }

  function DeltaSum(a: LumaPlane, b: LumaPlane, mask: Option<Rect>, n: nat): real
    requires Comparable(a, b) && n <= |a.samples|
  {
    if n == 0 then 0.0
    else DeltaSum(a, b, mask, n - 1) + (if Seen(a, mask, n - 1) then Delta(a, b, n - 1) else 0.0)
  }

  predicate Changed(a: LumaPlane, b: LumaPlane, mask: Option<Rect>, perSample: real, k: nat)
    requires Comparable(a, b) && k < |a.samples|
  {
    Seen(a, mask, k) && Delta(a, b, k) > perSample
  }

  function ChangedCount(a: LumaPlane, b: LumaPlane, mask: Option<Rect>, perSample: real, n: nat): nat
    requires Comparable(a, b) && n <= |a.samples|
  {
    if n == 0 then 0
    else ChangedCount(a, b, mask, perSample, n - 1) + (if Changed(a, b, mask, perSample, n - 1) then 1 else 0)
  }

  function ChangedSum(a: LumaPlane, b: LumaPlane, mask: Option<Rect>, perSample: real, n: nat): real
    requires Comparable(a, b) && n <= |a.samples|
  {
    if n == 0 then 0.0
    else
      ChangedSum(a, b, mask, perSample, n - 1)
      + (if Changed(a, b, mask, perSample, n - 1) then Delta(a, b, n - 1) else 0.0)
  }

  /** Whether a comparison has anything to average over. Planes of different
      size never have. */
  predicate HasSamples(a: LumaPlane, b: LumaPlane, mask: Option<Rect>) {
    Comparable(a, b) && SeenCount(a, mask, |a.samples|) > 0
  }

  /** Mean absolute difference over the unmasked samples, normalised. */
  function MeanDiff(a: LumaPlane, b: LumaPlane, mask: Option<Rect>): real {
    if HasSamples(a, b, mask) then
      DeltaSum(a, b, mask, |a.samples|) / SeenCount(a, mask, |a.samples|) as real / 255.0
    else 0.0
  }

  /** Fraction of the unmasked samples that changed by more than `perSample`. */
  function AreaRatio(a: LumaPlane, b: LumaPlane, mask: Option<Rect>, perSample: real): real {
    if HasSamples(a, b, mask) then
      ChangedCount(a, b, mask, perSample, |a.samples|) as real / SeenCount(a, mask, |a.samples|) as real
    else 0.0
  }

  /** The fused statistics, in terms of the separate metrics. */
  function Stats(a: LumaPlane, b: LumaPlane, mask: Option<Rect>, perSample: real): ChangeStats {
    if HasSamples(a, b, mask) then
      var changed := ChangedCount(a, b, mask, perSample, |a.samples|);
      ChangeStats(MeanDiff(a, b, mask), changed, AreaRatio(a, b, mask, perSample),
                  Mean(ChangedSum(a, b, mask, perSample, |a.samples|), changed))
    else NO_CHANGE
  }

  lemma CellInPlane(a: LumaPlane, x: nat, y: nat)
    requires a.Valid() && x < a.width && y < a.height
    ensures y * a.width + x < |a.samples|
    ensures (y * a.width + x) % a.width == x && (y * a.width + x) / a.width == y
  {
    DivModUnique(a.width, y, x);
    MulMono(y + 1, a.height, a.width);
  }

  /** `change_stats`: one pass for all four numbers, and exactly the two separate metrics. */
  method ComputeStats(a: LumaPlane, b: LumaPlane, mask: Option<Rect>, perSample: real) returns (stats: ChangeStats)
    requires a.Valid() && b.Valid()
    ensures stats == Stats(a, b, mask, perSample)
    ensures stats.normalizedMeanDiff == MeanDiff(a, b, mask)
    ensures stats.changedRatio == AreaRatio(a, b, mask, perSample)
  {
    if a.width != b.width || a.height != b.height || |a.samples| == 0 {
      return NO_CHANGE;
    }
    var totalDelta, changedDelta := 0.0, 0.0;
    var sampled, changed := 0, 0;
    for y := 0 to a.height
      invariant y * a.width <= |a.samples|
      invariant totalDelta == DeltaSum(a, b, mask, y * a.width)
      invariant changedDelta == ChangedSum(a, b, mask, perSample, y * a.width)
      invariant sampled == SeenCount(a, mask, y * a.width)
      invariant changed == ChangedCount(a, b, mask, perSample, y * a.width)
    {
      for x := 0 to a.width
        invariant y * a.width + x <= |a.samples|
        invariant totalDelta == DeltaSum(a, b, mask, y * a.width + x)
        invariant changedDelta == ChangedSum(a, b, mask, perSample, y * a.width + x)
        invariant sampled == SeenCount(a, mask, y * a.width + x)
        invariant changed == ChangedCount(a, b, mask, perSample, y * a.width + x)
      {
        CellInPlane(a, x, y);
        if InMask(mask, x, y) {
          continue;
        }
        var i := y * a.width + x;
        var delta := if a.samples[i] < b.samples[i] then b.samples[i] - a.samples[i] else a.samples[i] - b.samples[i];
        totalDelta := totalDelta + delta;
        sampled := sampled + 1;
        if delta > perSample {
          changed := changed + 1;
          changedDelta := changedDelta + delta;
        }
      }
      assert y * a.width + a.width == (y + 1) * a.width;
    }
    assert a.height * a.width == |a.samples|;
    if sampled == 0 {
      return NO_CHANGE;
    }
    stats := ChangeStats(totalDelta / sampled as real / 255.0, changed, changed as real / sampled as real,
                         if changed == 0 then 0.0 else changedDelta / changed as real);
  }

  method MaskedLumaDiff(a: LumaPlane, b: LumaPlane, mask: Option<Rect>) returns (diff: real)
    requires a.Valid() && b.Valid()
    ensures diff == MeanDiff(a, b, mask)
  {
    if a.width != b.width || a.height != b.height || |a.samples| == 0 {
      return 0.0;
    }
    var sum, count := 0.0, 0;
    for y := 0 to a.height
      invariant y * a.width <= |a.samples|
      invariant sum == DeltaSum(a, b, mask, y * a.width)
      invariant count == SeenCount(a, mask, y * a.width)
    {
      for x := 0 to a.width
        invariant y * a.width + x <= |a.samples|
        invariant sum == DeltaSum(a, b, mask, y * a.width + x)
        invariant count == SeenCount(a, mask, y * a.width + x)
      {
        CellInPlane(a, x, y);
        if InMask(mask, x, y) {
          continue;
        }
        var i := y * a.width + x;
        sum := sum + (if a.samples[i] < b.samples[i] then b.samples[i] - a.samples[i] else a.samples[i] - b.samples[i]);
        count := count + 1;
      }
      assert y * a.width + a.width == (y + 1) * a.width;
    }
    assert a.height * a.width == |a.samples|;
    diff := if count == 0 then 0.0 else sum / count as real / 255.0;
  }

  method ChangedAreaRatio(a: LumaPlane, b: LumaPlane, mask: Option<Rect>, perSample: real) returns (ratio: real)
    requires a.Valid() && b.Valid()
    ensures ratio == AreaRatio(a, b, mask, perSample)
  {
    if a.width != b.width || a.height != b.height || |a.samples| == 0 {
      return 0.0;
    }
    var changed, count := 0, 0;
    for y := 0 to a.height
      invariant y * a.width <= |a.samples|
      invariant changed == ChangedCount(a, b, mask, perSample, y * a.width)
      invariant count == SeenCount(a, mask, y * a.width)
    {
      for x := 0 to a.width
        invariant y * a.width + x <= |a.samples|
        invariant changed == ChangedCount(a, b, mask, perSample, y * a.width + x)
        invariant count == SeenCount(a, mask, y * a.width + x)
      {
        CellInPlane(a, x, y);
        if InMask(mask, x, y) {
          continue;
        }
        var i := y * a.width + x;
        var delta := if a.samples[i] < b.samples[i] then b.samples[i] - a.samples[i] else a.samples[i] - b.samples[i];
        if delta > perSample {
          changed := changed + 1;
        }
        count := count + 1;
      }
      assert y * a.width + a.width == (y + 1) * a.width;
    }
    assert a.height * a.width == |a.samples|;
    ratio := if count == 0 then 0.0 else changed as real / count as real;
  }

  // ------------------------------------------------------ metric properties

  lemma ScaledStep(c: nat, p: real)
    ensures Scaled(c + 1, p) == Scaled(c, p) + p
  {
  }

  /** The changed samples are some of the unmasked ones, and every one of them
      contributes more than the threshold to the difference. */
  lemma {:induction false} ChangedSamples(a: LumaPlane, b: LumaPlane, mask: Option<Rect>, perSample: real, n: nat)
    requires Comparable(a, b) && n <= |a.samples| && perSample >= 0.0
    ensures ChangedCount(a, b, mask, perSample, n) <= SeenCount(a, mask, n)
    ensures Scaled(ChangedCount(a, b, mask, perSample, n), perSample) <= ChangedSum(a, b, mask, perSample, n)
    ensures ChangedSum(a, b, mask, perSample, n) <= DeltaSum(a, b, mask, n)
  {
    if n > 0 {
      ChangedSamples(a, b, mask, perSample, n - 1);
      ScaledStep(ChangedCount(a, b, mask, perSample, n - 1), perSample);
    }
  }

  /** No difference is measured exactly if every unmasked sample is equal. */
  lemma {:induction false} NoDiffIffEqual(a: LumaPlane, b: LumaPlane, mask: Option<Rect>, n: nat)
    requires Comparable(a, b) && n <= |a.samples|
    ensures DeltaSum(a, b, mask, n) >= 0.0
    ensures DeltaSum(a, b, mask, n) == 0.0 <==>
              forall k: nat | k < n && Seen(a, mask, k) :: a.samples[k] == b.samples[k]
  {
    if n > 0 {
      NoDiffIffEqual(a, b, mask, n - 1);
    }
  }
}
