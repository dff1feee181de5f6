/** The RGB32 to NV12 colour converter of the media source's tools: BT.601
    Y'CbCr in 8-bit fixed point with studio-range quantisation. */
module ColorConversion {
  import opened HResults

  newtype Byte = b: int | 0 <= b < 256

  const UINT32_LIMIT: int := 0x1_0000_0000

  /* ---------- per-pixel formulas ---------- */

  /** `x >> 8` on a signed int: an arithmetic shift, i.e. division by 256
      rounded toward minus infinity (Dafny's `/` by a positive divisor). */
  function Shr8(x: int): (q: int)
    ensures 256 * q <= x < 256 * q + 256
  {
    x / 256
  }

  /** Luma of one pixel. */
  function Rgb24ToY(r: Byte, g: Byte, b: Byte): Byte {
    (Shr8(66 * r as int + 129 * g as int + 25 * b as int + 128) + 16) as Byte
  }

  datatype Yuv = Yuv(y: Byte, u: Byte, v: Byte)

  /** Luma and both chroma samples of one pixel. */
  function Rgb24ToYuy2(r: Byte, g: Byte, b: Byte): Yuv {
    var u := Shr8(-38 * r as int - 74 * g as int + 112 * b as int + 128) + 128;
    var v := Shr8(112 * r as int - 94 * g as int - 18 * b as int + 128) + 128;
    Yuv(Rgb24ToY(r, g, b), u as Byte, v as Byte)
  }

  /** Luma lies in the studio range [16, 235], and y - 16 is the fixed-point
      value 66R + 129G + 25B rounded to the nearest multiple of 256. */
  lemma LumaRounding(r: Byte, g: Byte, b: Byte)
    ensures 16 <= Rgb24ToY(r, g, b) <= 235
    ensures -128 <= 66 * r as int + 129 * g as int + 25 * b as int
                    - 256 * (Rgb24ToY(r, g, b) as int - 16) < 128
  {
  }

  /** Both chroma samples lie in the studio range [16, 240], each the
      rounded fixed-point value of its BT.601 row, offset by 128; the luma
      of the triple is Rgb24ToY's. */
  lemma ChromaRounding(r: Byte, g: Byte, b: Byte)
    ensures Rgb24ToYuy2(r, g, b).y == Rgb24ToY(r, g, b)
    ensures 16 <= Rgb24ToYuy2(r, g, b).u <= 240 && 16 <= Rgb24ToYuy2(r, g, b).v <= 240
    ensures -128 <= -38 * r as int - 74 * g as int + 112 * b as int
                    - 256 * (Rgb24ToYuy2(r, g, b).u as int - 128) < 128
    ensures -128 <= 112 * r as int - 94 * g as int - 18 * b as int
                    - 256 * (Rgb24ToYuy2(r, g, b).v as int - 128) < 128
  {
  }

  /** A grey pixel has neutral chroma. */
  lemma GreyIsNeutral(c: Byte)
    ensures Rgb24ToYuy2(c, c, c).u == 128 && Rgb24ToYuy2(c, c, c).v == 128
  {
  }

  /** Black and white sit at the two ends of the studio luma range. */
  lemma LumaExtremes()
    ensures Rgb24ToY(0, 0, 0) == 16
    ensures Rgb24ToY(255, 255, 255) == 235
  {
  }

  /** Luma never decreases when one channel grows. */
  lemma LumaMonotone(r: Byte, g: Byte, b: Byte, r': Byte, g': Byte, b': Byte)
    requires r <= r' && g <= g' && b <= b'
    ensures Rgb24ToY(r, g, b) <= Rgb24ToY(r', g', b')
  {
    var x := 66 * r as int + 129 * g as int + 25 * b as int + 128;
    var x' := 66 * r' as int + 129 * g' as int + 25 * b' as int + 128;
    ShrMonotone(x, x');
  }

  lemma ShrMonotone(x: int, x': int)
    requires x <= x'
    ensures Shr8(x) <= Shr8(x')
  {
  }


  /* ---------- strided addressing ---------- */

  /** a * b by repeated addition. Row offsets are built from it so that the
      proofs about strided planes stay within linear arithmetic;
      MulIsProduct connects it to `*`. */
  function Mul(a: nat, b: nat): nat {
    if a == 0 then 0 else Mul(a - 1, b) + b
  }

  lemma {:induction false} MulIsProduct(a: nat, b: nat)
    ensures Mul(a, b) == a * b
  {
    if a > 0 {
      MulIsProduct(a - 1, b);
    }
  }

  lemma {:induction false} MulMonotone(a: nat, a': nat, b: nat)
    requires a <= a'
    ensures Mul(a, b) <= Mul(a', b)
  {
    if a < a' {
      MulMonotone(a, a' - 1, b);
    }
  }

  /** Row of offset k in a plane whose rows are `stride` bytes apart. */
  function Row(k: nat, stride: nat): nat
    requires stride > 0
  {
    if k < stride then 0 else Row(k - stride, stride) + 1
  }

  /** Column of offset k in a plane whose rows are `stride` bytes apart. */
  function Col(k: nat, stride: nat): (c: nat)
    requires stride > 0
    ensures c < stride
  {
    if k < stride then k else Col(k - stride, stride)
  }

  /** Every offset is its row's start plus its column. */
  lemma {:induction false} RowColSplit(k: nat, stride: nat)
    requires stride > 0
    ensures k == Mul(Row(k, stride), stride) + Col(k, stride)
  {
    if k >= stride {
      RowColSplit(k - stride, stride);
    }
  }

  /** ... and that decomposition is unique. */
  lemma {:induction false} RowColOf(r: nat, c: nat, stride: nat)
    requires c < stride
    ensures Row(Mul(r, stride) + c, stride) == r
    ensures Col(Mul(r, stride) + c, stride) == c
  {
    if r > 0 {
      RowColOf(r - 1, c, stride);
    }
  }

  /* ---------- pixels ---------- */

  /** Luma of the pixel whose B, G, R, X bytes start at `base`; a pixel
      outside the input (Layout rules that out for every pixel the
      converter reads) gives 0. */
  function LumaAtOffset(inp: seq<Byte>, base: nat): Byte {
    if base + 4 <= |inp| then Rgb24ToY(inp[base + 2], inp[base + 1], inp[base]) else 0
  }

  /** U (or, when `odd`, V) of the pixel starting at `base`. */
  function ChromaAtOffset(inp: seq<Byte>, base: nat, odd: bool): Byte {
    if base + 4 <= |inp| then
      var p := Rgb24ToYuy2(inp[base + 2], inp[base + 1], inp[base]);
      if odd then p.v else p.u
    else 0
  }

  /** Luma of pixel (row, col) of a packed RGB32 image whose rows are
      `stride` bytes apart. */
  function LumaAt(inp: seq<Byte>, stride: nat, row: nat, col: nat): Byte {
    LumaAtOffset(inp, Mul(row, stride) + 4 * col)
  }

  /** Byte `col` of a chroma row computed from source row `row`: U at even
      columns, V at odd ones, both from the pixel at the even column. */
  function ChromaAt(inp: seq<Byte>, stride: nat, row: nat, col: nat): Byte {
    ChromaAtOffset(inp, Mul(row, stride) + 4 * (col - col % 2), col % 2 == 1)
  }

  /* ---------- the size checks and the layout ---------- */

  /** The two size checks at the head of the converter, on unbounded
      integers: the packed input and the NV12 output must fit the sizes the
      caller declared. */
  predicate SizesAccepted(width: nat, height: nat, inputSize: nat, outputSize: nat) {
    !(width * 4 * height > inputSize) && !(width * height * 3 / 2 > outputSize)
  }

  /** What the converter's addressing needs once the size checks passed:
      rows that do not overlap, the source image inside the
      input, and the luma plane plus the half-height chroma plane (which
      starts at output row `height`) inside the output. */
  predicate Layout(width: nat, height: nat, inputSize: nat, inputStride: nat,
                   outputSize: nat, outputStride: nat)
  {
    && inputStride >= 4 * Columns(width)
    && outputStride >= Columns(width)
    && (height >= 1 ==> Mul(height - 1, inputStride) + 4 * Columns(width) <= inputSize)
    && Mul(height + height / 2, outputStride) <= outputSize
  }

  /** Number of columns the converter writes: it steps two pixels at a
      time while the column is below `width`, so an odd width gets one
      extra column, read from the row's padding. */
  function Columns(width: nat): (n: nat)
    ensures n % 2 == 0 && width <= n <= width + 1
  {
    width + width % 2
  }

  /** Number of source rows that receive luma: rows go in pairs, so an odd
      last row is skipped. */
  function LumaRows(height: nat): (n: nat)
    ensures n <= height && n % 2 == 0 && height - n < 2
  {
    2 * (height / 2)
  }

  /** An even written column is the left one of a written pair. */
  lemma PairInColumns(c: nat, width: nat)
    requires c % 2 == 0 && c < Columns(width)
    ensures c + 1 < Columns(width)
  {
  }

  /* ---------- the two planes the converter computes ---------- */

  /** A plane of bytes addressed by source row and column. */
  type Plane = (nat, nat) -> Byte

  /** Luma of every source pixel of a packed RGB32 image. */
  function LumaPlane(inp: seq<Byte>, stride: nat): Plane {
    (row: nat, col: nat) => LumaAt(inp, stride, row, col)
  }

  /** The chroma bytes computed from every source row of the image. */
  function ChromaPlane(inp: seq<Byte>, stride: nat): Plane {
    (row: nat, col: nat) => ChromaAt(inp, stride, row, col)
  }

  /** The NV12 frame the converter makes of image `inp` over the output
      bytes `orig`. */
  function Nv12Image(inp: seq<Byte>, inputStride: nat, width: nat, height: nat,
                     orig: seq<Byte>, outputStride: nat): (out: seq<Byte>)
    ensures |out| == |orig|
  {
    Nv12Frame(LumaPlane(inp, inputStride), ChromaPlane(inp, inputStride), width, height, orig, outputStride)
  }

  /** The frame part-way through converting image `inp`. */
  function PartialImage(inp: seq<Byte>, inputStride: nat, width: nat, height: nat,
                        orig: seq<Byte>, outputStride: nat, h: nat, w: nat): (out: seq<Byte>)
    ensures |out| == |orig|
  {
    PartialFrame(LumaPlane(inp, inputStride), ChromaPlane(inp, inputStride), width, height,
                 orig, outputStride, h, w)
  }

  /* ---------- the converted frame, byte by byte ---------- */

  /** Output byte k once every row pair is converted: luma for the written
      rows and columns, chroma (from the lower-left pixel of each 2x2 block)
      for the chroma rows, the old byte everywhere else. */
  function Nv12ByteAt(luma: Plane, chroma: Plane, width: nat, height: nat,
                      orig: seq<Byte>, outputStride: nat, k: nat): Byte
    requires k < |orig|
  {
    if outputStride == 0 then orig[k]
    else Nv12Cell(luma, chroma, width, height,
                  Row(k, outputStride), Col(k, outputStride), orig[k])
  }

  /** Byte (row, col) of the converted frame; `prior` is what it held before. */
  function Nv12Cell(luma: Plane, chroma: Plane, width: nat, height: nat,
                    row: nat, col: nat, prior: Byte): Byte
  {
    if col < Columns(width) && row < LumaRows(height) then luma(row, col)
    else if col < Columns(width) && height <= row < height + height / 2 then
      chroma(2 * (row - height) + 1, col)
    else prior
  }

  function Nv12Frame(luma: Plane, chroma: Plane, width: nat, height: nat,
                     orig: seq<Byte>, outputStride: nat): (out: seq<Byte>)
    ensures |out| == |orig|
  {
    seq(|orig|, k requires 0 <= k < |orig| =>
      Nv12ByteAt(luma, chroma, width, height, orig, outputStride, k))
  }

  /** Byte (row, col) of the output after the row pairs above `h` and the
      first `w` columns of the pair at `h` are converted; `prior` is what
      the byte held before the conversion. */
  function PartialCell(luma: Plane, chroma: Plane, width: nat, height: nat,
                       h: nat, w: nat, row: nat, col: nat, prior: Byte): Byte
  {
    if col < Columns(width) && (row < h || (h <= row <= h + 1 && col < w)) then
      luma(row, col)
    else if col < Columns(width) && height <= row &&
            (row < height + h / 2 || (row == height + h / 2 && col < w)) then
      chroma(2 * (row - height) + 1, col)
    else prior
  }

  /** Output byte k part-way through the conversion. */
  function PartialByteAt(luma: Plane, chroma: Plane, width: nat, height: nat,
                         orig: seq<Byte>, outputStride: nat, h: nat, w: nat, k: nat): Byte
    requires k < |orig|
  {
    if outputStride == 0 then orig[k]
    else PartialCell(luma, chroma, width, height, h, w,
                     Row(k, outputStride), Col(k, outputStride), orig[k])
  }

  function PartialFrame(luma: Plane, chroma: Plane, width: nat, height: nat,
                        orig: seq<Byte>, outputStride: nat, h: nat, w: nat): (out: seq<Byte>)
    ensures |out| == |orig|
  {
    seq(|orig|, k requires 0 <= k < |orig| =>
      PartialByteAt(luma, chroma, width, height, orig, outputStride, h, w, k))
  }

  /* ---------- the loop's progress, one step at a time ---------- */

  /** Every offset one 2x2 block touches lies inside its buffer, and the six
      output bytes are distinct. */
  lemma BlockBounds(width: nat, height: nat, inputLen: nat, inputStride: nat,
                    outputLen: nat, outputStride: nat, h: nat, w: nat)
    requires Layout(width, height, inputLen, inputStride, outputLen, outputStride)
    requires h % 2 == 0 && h + 1 < height && w % 2 == 0 && w + 2 <= Columns(width)
    ensures Mul(h, inputStride) + 4 * w + 8 <= Mul(h + 1, inputStride) + 4 * w + 8 <= inputLen
    ensures Mul(h, outputStride) + w + 2 <= Mul(h + 1, outputStride)
    ensures Mul(h + 1, outputStride) + w + 2 <= Mul(height + h / 2, outputStride)
    ensures Mul(height + h / 2, outputStride) + w + 2 <= outputLen
  {
    MulMonotone(h + 1, height - 1, inputStride);
    MulMonotone(h + 2, height + h / 2, outputStride);
    MulMonotone(height + h / 2 + 1, height + height / 2, outputStride);
  }

  lemma PartialByteAtStart(luma: Plane, chroma: Plane, width: nat, height: nat,
                           orig: seq<Byte>, outputStride: nat, k: nat)
    requires k < |orig|
    ensures PartialByteAt(luma, chroma, width, height, orig, outputStride, 0, 0, k) == orig[k]
  {
  }

  /** Nothing is converted before the first row pair. */
  lemma PartialStart(luma: Plane, chroma: Plane, width: nat, height: nat,
                     orig: seq<Byte>, outputStride: nat)
    ensures PartialFrame(luma, chroma, width, height, orig, outputStride, 0, 0) == orig
  {
    var a := PartialFrame(luma, chroma, width, height, orig, outputStride, 0, 0);
    forall k | 0 <= k < |orig|
      ensures a[k] == orig[k]
    {
      PartialByteAtStart(luma, chroma, width, height, orig, outputStride, k);
    }
  }

  /** Converting the 2x2 block at (h, w) fills its four luma cells and its
      chroma pair, and no other cell. */
  lemma PartialCellBlock(luma: Plane, chroma: Plane, width: nat, height: nat,
                         h: nat, w: nat, row: nat, col: nat, prior: Byte)
    requires h % 2 == 0 && h + 1 < height && w % 2 == 0 && w + 2 <= Columns(width)
    ensures PartialCell(luma, chroma, width, height, h, w + 2, row, col, prior)
         == if (row == h || row == h + 1) && (col == w || col == w + 1) then
              luma(row, col)
            else if row == height + h / 2 && (col == w || col == w + 1) then
              chroma(h + 1, col)
            else PartialCell(luma, chroma, width, height, h, w, row, col, prior)
  {
  }

  /** The offsets of a block's six output bytes are the offsets of its cells. */
  lemma BlockOffsets(S: nat, k: nat, r: nat, c: nat)
    requires S > 0 && c < S
    ensures k == Mul(r, S) + c <==> Row(k, S) == r && Col(k, S) == c
  {
    RowColOf(r, c, S);
    RowColSplit(k, S);
  }

  /** The same, byte k of the output. */
  lemma PartialByteAtBlock(luma: Plane, chroma: Plane, width: nat, height: nat,
                           orig: seq<Byte>, outputStride: nat, h: nat, w: nat, k: nat)
    requires outputStride >= Columns(width)
    requires h % 2 == 0 && h + 1 < height && w % 2 == 0 && w + 2 <= Columns(width)
    requires k < |orig|
    ensures
      var S := outputStride;
      var y1, y2, uv := Mul(h, S) + w, Mul(h + 1, S) + w, Mul(height + h / 2, S) + w;
      PartialByteAt(luma, chroma, width, height, orig, S, h, w + 2, k)
      == if k == y1 then luma(h, w)
         else if k == y1 + 1 then luma(h, w + 1)
         else if k == y2 then luma(h + 1, w)
         else if k == y2 + 1 then luma(h + 1, w + 1)
         else if k == uv then chroma(h + 1, w)
         else if k == uv + 1 then chroma(h + 1, w + 1)
         else PartialByteAt(luma, chroma, width, height, orig, S, h, w, k)
  {
    var S := outputStride;
    var row, col := Row(k, S), Col(k, S);
    BlockOffsets(S, k, h, w);
    BlockOffsets(S, k, h, w + 1);
    BlockOffsets(S, k, h + 1, w);
    BlockOffsets(S, k, h + 1, w + 1);
    BlockOffsets(S, k, height + h / 2, w);
    BlockOffsets(S, k, height + h / 2, w + 1);
    PartialCellBlock(luma, chroma, width, height, h, w, row, col, orig[k]);
  }

  /** Frame `f` with one 2x2 block's six output bytes replaced: luma
      `l1`, `l2` at `y1`, `l3`, `l4` at `y2`, and the chroma pair `u`, `v`
      at `uv`. */
  function PutBlock(f: seq<Byte>, y1: nat, y2: nat, uv: nat,
                    l1: Byte, l2: Byte, l3: Byte, l4: Byte, u: Byte, v: Byte): (r: seq<Byte>)
    ensures |r| == |f|
  {
    seq(|f|, k requires 0 <= k < |f| =>
      if k == y1 then l1 else if k == y1 + 1 then l2
      else if k == y2 then l3 else if k == y2 + 1 then l4
      else if k == uv then u else if k == uv + 1 then v
      else f[k])
  }

  /** PutBlock is the six single-byte writes, one after another. */
  lemma PutBlockIsUpdates(f: seq<Byte>, y1: nat, y2: nat, uv: nat,
                          l1: Byte, l2: Byte, l3: Byte, l4: Byte, u: Byte, v: Byte)
    requires y1 + 2 <= y2 && y2 + 2 <= uv && uv + 2 <= |f|
    ensures PutBlock(f, y1, y2, uv, l1, l2, l3, l4, u, v)
         == f[y1 := l1][y1 + 1 := l2][y2 := l3][y2 + 1 := l4][uv := u][uv + 1 := v]
  {
  }

  /** The same, for the whole frame. */
  lemma PartialBlock(luma: Plane, chroma: Plane, width: nat, height: nat,
                     orig: seq<Byte>, outputStride: nat, h: nat, w: nat)
    requires outputStride >= Columns(width)
    requires h % 2 == 0 && h + 1 < height && w % 2 == 0 && w + 2 <= Columns(width)
    ensures
      var S := outputStride;
      var y1, y2, uv := Mul(h, S) + w, Mul(h + 1, S) + w, Mul(height + h / 2, S) + w;
      PartialFrame(luma, chroma, width, height, orig, S, h, w + 2)
      == PutBlock(PartialFrame(luma, chroma, width, height, orig, S, h, w), y1, y2, uv,
                  luma(h, w), luma(h, w + 1),
                  luma(h + 1, w), luma(h + 1, w + 1),
                  chroma(h + 1, w), chroma(h + 1, w + 1))
  {
    var S := outputStride;
    var y1, y2, uv := Mul(h, S) + w, Mul(h + 1, S) + w, Mul(height + h / 2, S) + w;
    var a := PartialFrame(luma, chroma, width, height, orig, S, h, w + 2);
    var b := PutBlock(PartialFrame(luma, chroma, width, height, orig, S, h, w), y1, y2, uv,
                  luma(h, w), luma(h, w + 1),
                  luma(h + 1, w), luma(h + 1, w + 1),
                  chroma(h + 1, w), chroma(h + 1, w + 1));
    forall k | 0 <= k < |a|
      ensures a[k] == b[k]
    {
      PartialByteAtBlock(luma, chroma, width, height, orig, S, h, w, k);
    }
  }

  lemma PartialByteAtNextPair(luma: Plane, chroma: Plane, width: nat, height: nat,
                              orig: seq<Byte>, outputStride: nat, h: nat, k: nat)
    requires h % 2 == 0 && k < |orig|
    ensures PartialByteAt(luma, chroma, width, height, orig, outputStride, h, Columns(width), k)
         == PartialByteAt(luma, chroma, width, height, orig, outputStride, h + 2, 0, k)
  {
  }

  /** A finished row pair is the start of the next one. */
  lemma PartialNextPair(luma: Plane, chroma: Plane, width: nat, height: nat,
                        orig: seq<Byte>, outputStride: nat, h: nat)
    requires h % 2 == 0
    ensures PartialFrame(luma, chroma, width, height, orig, outputStride, h, Columns(width))
         == PartialFrame(luma, chroma, width, height, orig, outputStride, h + 2, 0)
  {
    var a := PartialFrame(luma, chroma, width, height, orig, outputStride, h, Columns(width));
    var b := PartialFrame(luma, chroma, width, height, orig, outputStride, h + 2, 0);
    forall k | 0 <= k < |orig|
      ensures a[k] == b[k]
    {
      PartialByteAtNextPair(luma, chroma, width, height, orig, outputStride, h, k);
    }
  }

  lemma PartialByteAtDone(luma: Plane, chroma: Plane, width: nat, height: nat,
                          orig: seq<Byte>, outputStride: nat, k: nat)
    requires k < |orig|
    ensures PartialByteAt(luma, chroma, width, height, orig, outputStride, LumaRows(height), 0, k)
         == Nv12ByteAt(luma, chroma, width, height, orig, outputStride, k)
  {
  }

  /** After the last row pair the frame is the converted frame. */
  lemma PartialDone(luma: Plane, chroma: Plane, width: nat, height: nat,
                    orig: seq<Byte>, outputStride: nat)
    ensures PartialFrame(luma, chroma, width, height, orig, outputStride, LumaRows(height), 0)
         == Nv12Frame(luma, chroma, width, height, orig, outputStride)
  {
    var a := PartialFrame(luma, chroma, width, height, orig, outputStride, LumaRows(height), 0);
    forall k | 0 <= k < |orig|
      ensures a[k] == Nv12Frame(luma, chroma, width, height, orig, outputStride)[k]
    {
      PartialByteAtDone(luma, chroma, width, height, orig, outputStride, k);
    }
  }

  /* ---------- the converter ---------- */

  /** One 2x2 block: luma for the two pixels at `rgb1` (upper row) and the
      two at `rgb2` (lower row); the chroma pair is written from the first
      upper pixel and then overwritten from the first lower pixel. */
  method ConvertBlock(input: array<Byte>, rgb1: nat, rgb2: nat,
                      output: array<Byte>, y1: nat, y2: nat, uv: nat)
    requires input != output
    requires rgb1 + 8 <= input.Length && rgb2 + 8 <= input.Length
    requires y1 + 2 <= y2 && y2 + 2 <= uv && uv + 2 <= output.Length
    modifies output
    ensures output[..] == PutBlock(old(output[..]), y1, y2, uv,
      LumaAtOffset(input[..], rgb1), LumaAtOffset(input[..], rgb1 + 4),
      LumaAtOffset(input[..], rgb2), LumaAtOffset(input[..], rgb2 + 4),
      ChromaAtOffset(input[..], rgb2, false), ChromaAtOffset(input[..], rgb2, true))
  {
    ghost var inp := input[..];
    var p := Rgb24ToYuy2(input[rgb1 + 2], input[rgb1 + 1], input[rgb1]);
    output[y1], output[uv], output[uv + 1] := p.y, p.u, p.v;
    var l2 := Rgb24ToY(input[rgb1 + 6], input[rgb1 + 5], input[rgb1 + 4]);
    output[y1 + 1] := l2;
    var q := Rgb24ToYuy2(input[rgb2 + 2], input[rgb2 + 1], input[rgb2]);
    output[y2], output[uv], output[uv + 1] := q.y, q.u, q.v;
    var l4 := Rgb24ToY(input[rgb2 + 6], input[rgb2 + 5], input[rgb2 + 4]);
    output[y2 + 1] := l4;
    assert p.y == LumaAtOffset(inp, rgb1) && l2 == LumaAtOffset(inp, rgb1 + 4);
    assert q.y == LumaAtOffset(inp, rgb2) && l4 == LumaAtOffset(inp, rgb2 + 4);
    assert q.u == ChromaAtOffset(inp, rgb2, false) && q.v == ChromaAtOffset(inp, rgb2, true);
    PutBlockIsUpdates(old(output[..]), y1, y2, uv, p.y, l2, q.y, l4, q.u, q.v);
    assert output[..] == old(output[..])[y1 := p.y][y1 + 1 := l2][y2 := q.y][y2 + 1 := l4][uv := q.u][uv + 1 := q.v];
  }

  /** The pixels a block reads, by row and column and by byte offset. */
  lemma BlockPixels(inp: seq<Byte>, inputStride: nat, h: nat, w: nat)
    requires w % 2 == 0
    ensures LumaAt(inp, inputStride, h, w) == LumaAtOffset(inp, Mul(h, inputStride) + 4 * w)
    ensures LumaAt(inp, inputStride, h, w + 1) == LumaAtOffset(inp, Mul(h, inputStride) + 4 * w + 4)
    ensures ChromaAt(inp, inputStride, h, w) == ChromaAtOffset(inp, Mul(h, inputStride) + 4 * w, false)
    ensures ChromaAt(inp, inputStride, h, w + 1) == ChromaAtOffset(inp, Mul(h, inputStride) + 4 * w, true)
  {
    assert w % 2 == 0 && (w + 1) % 2 == 1;
    assert 4 * (w + 1) == 4 * w + 4;
  }

  /** A block converted at the offsets the row loop keeps advances the
      partial frame by one block. */
  lemma BlockStep(inp: seq<Byte>, inputStride: nat, width: nat, height: nat,
                  orig: seq<Byte>, outputStride: nat, h: nat, w: nat,
                  before: seq<Byte>, after: seq<Byte>)
    requires outputStride >= Columns(width)
    requires h % 2 == 0 && h + 1 < height && w % 2 == 0 && w + 2 <= Columns(width)
    requires before == PartialImage(inp, inputStride, width, height, orig, outputStride, h, w)
    requires
      var rgb1, rgb2 := Mul(h, inputStride) + 4 * w, Mul(h + 1, inputStride) + 4 * w;
      after == PutBlock(before, Mul(h, outputStride) + w, Mul(h + 1, outputStride) + w,
                        Mul(height + h / 2, outputStride) + w,
                        LumaAtOffset(inp, rgb1), LumaAtOffset(inp, rgb1 + 4),
                        LumaAtOffset(inp, rgb2), LumaAtOffset(inp, rgb2 + 4),
                        ChromaAtOffset(inp, rgb2, false), ChromaAtOffset(inp, rgb2, true))
    ensures after == PartialImage(inp, inputStride, width, height, orig, outputStride, h, w + 2)
  {
    PlanePixels(inp, inputStride, h, w);
    PlanePixels(inp, inputStride, h + 1, w);
    PartialBlock(LumaPlane(inp, inputStride), ChromaPlane(inp, inputStride),
                 width, height, orig, outputStride, h, w);
  }

  /** The four plane cells at (row, w) and (row, w + 1), by input offset. */
  lemma PlanePixels(inp: seq<Byte>, inputStride: nat, row: nat, w: nat)
    requires w % 2 == 0
    ensures
      var luma, chroma := LumaPlane(inp, inputStride), ChromaPlane(inp, inputStride);
      var base := Mul(row, inputStride) + 4 * w;
      && luma(row, w) == LumaAtOffset(inp, base) && luma(row, w + 1) == LumaAtOffset(inp, base + 4)
      && chroma(row, w) == ChromaAtOffset(inp, base, false)
      && chroma(row, w + 1) == ChromaAtOffset(inp, base, true)
  {
    var luma, chroma := LumaPlane(inp, inputStride), ChromaPlane(inp, inputStride);
    BlockPixels(inp, inputStride, row, w);
    assert luma(row, w) == LumaAt(inp, inputStride, row, w);
    assert luma(row, w + 1) == LumaAt(inp, inputStride, row, w + 1);
    assert chroma(row, w) == ChromaAt(inp, inputStride, row, w);
    assert chroma(row, w + 1) == ChromaAt(inp, inputStride, row, w + 1);
  }

  /** Offset of row `row` in a plane whose rows are `stride` bytes apart. */
  method RowStart(row: nat, stride: nat) returns (offset: nat)
    ensures offset == Mul(row, stride)
  {
    MulIsProduct(row, stride);
    return row * stride;
  }

  /** The offsets the row loop keeps at column w of row pair h: the two
      source pixels and the three output cells of the block there. */
  predicate Cursor(inputStride: nat, height: nat, outputStride: nat, h: nat, w: nat,
                   rgb1: nat, rgb2: nat, y1: nat, y2: nat, uv: nat)
  {
    && rgb1 == Mul(h, inputStride) + 4 * w && rgb2 == Mul(h + 1, inputStride) + 4 * w
    && y1 == Mul(h, outputStride) + w && y2 == Mul(h + 1, outputStride) + w
    && uv == Mul(height + h / 2, outputStride) + w
  }

  /** One turn of the row loop's inner loop: converts the 2x2 block at
      column w of row pair h, whose offsets the loop keeps. */
  method ConvertBlockAt(input: array<Byte>, inputStride: nat, width: nat, height: nat,
                        output: array<Byte>, outputStride: nat, h: nat, w: nat, ghost orig: seq<Byte>, ghost inp: seq<Byte>,
                        rgb1: nat, rgb2: nat, y1: nat, y2: nat, uv: nat)
    requires input != output && input[..] == inp
    requires Layout(width, height, input.Length, inputStride, output.Length, outputStride)
    requires h % 2 == 0 && h + 1 < height && w % 2 == 0 && w + 2 <= Columns(width) && |orig| == output.Length
    requires Cursor(inputStride, height, outputStride, h, w, rgb1, rgb2, y1, y2, uv)
    requires output[..] == PartialImage(inp, inputStride, width, height, orig, outputStride, h, w)
    modifies output
    ensures output[..] == PartialImage(inp, inputStride, width, height, orig, outputStride, h, w + 2)
  {
    BlockBounds(width, height, input.Length, inputStride, output.Length, outputStride, h, w);
    ghost var before := output[..];
    ConvertBlock(input, rgb1, rgb2, output, y1, y2, uv);
    BlockStep(inp, inputStride, width, height, orig, outputStride, h, w, before, output[..]);
  }

  /** One pass of the row loop: converts source rows h and h + 1. */
  method ConvertRowPair(input: array<Byte>, inputStride: nat, width: nat, height: nat,
                        output: array<Byte>, outputStride: nat, h: nat,
                        ghost inp: seq<Byte>, ghost orig: seq<Byte>)
    requires input != output && input[..] == inp
    requires Layout(width, height, input.Length, inputStride, output.Length, outputStride)
    requires h % 2 == 0 && h + 1 < height && |orig| == output.Length
    requires output[..] == PartialImage(inp, inputStride, width, height, orig, outputStride, h, 0)
    modifies output
    ensures output[..] == PartialImage(inp, inputStride, width, height, orig, outputStride, h + 2, 0)
  {
    var rgb1 := RowStart(h, inputStride);
    var rgb2 := RowStart(h + 1, inputStride);
    var y1 := RowStart(h, outputStride);
    var y2 := RowStart(h + 1, outputStride);
    var uv := RowStart(h / 2 + height, outputStride);
    var w: nat := 0;
    while w < width
      invariant w % 2 == 0 && w <= Columns(width)
      invariant Cursor(inputStride, height, outputStride, h, w, rgb1, rgb2, y1, y2, uv)
      invariant output[..] == PartialImage(inp, inputStride, width, height, orig, outputStride, h, w)
    {
      ConvertBlockAt(input, inputStride, width, height, output, outputStride, h, w, orig, inp, rgb1, rgb2, y1, y2, uv);
      rgb1, rgb2 := rgb1 + 8, rgb2 + 8;
      y1, y2, uv := y1 + 2, y2 + 2, uv + 2;
      w := w + 2;
    }
    PartialNextPair(LumaPlane(inp, inputStride), ChromaPlane(inp, inputStride), width, height,
                    orig, outputStride, h);
  }

  /** The converter's row loop, once the arguments are checked: converts
      row pair after row pair while `h + 1 < height`. */
  method ConvertFrame(input: array<Byte>, inputStride: nat, width: nat, height: nat,
                      output: array<Byte>, outputStride: nat)
    requires input != output
    requires Layout(width, height, input.Length, inputStride, output.Length, outputStride)
    modifies output
    ensures output[..] == Nv12Image(input[..], inputStride, width, height, old(output[..]), outputStride)
  {
    ghost var inp, orig := input[..], output[..];
    ghost var luma, chroma := LumaPlane(inp, inputStride), ChromaPlane(inp, inputStride);
    PartialStart(luma, chroma, width, height, orig, outputStride);
    var h: nat := 0;
    while h + 1 < height
      invariant h % 2 == 0 && h <= LumaRows(height)
      invariant input[..] == inp
      invariant output[..] == PartialImage(inp, inputStride, width, height, orig, outputStride, h, 0)
    {
      ConvertRowPair(input, inputStride, width, height, output, outputStride, h, inp, orig);
      h := h + 2;
    }
    PartialDone(luma, chroma, width, height, orig, outputStride);
  }

  /** Converts a packed RGB32 image into NV12: a full-size luma plane of
      `height` rows followed, from output row `height`, by a half-height
      plane of interleaved U/V pairs. The row loop runs while `h + 1 <
      height` (see ZeroHeightAsWritten for the unsigned `height - 1`). */
  method RGB32ToNV12(input: array?<Byte>, inputSize: nat, inputStride: nat,
                     width: nat, height: nat,
                     output: array?<Byte>, outputSize: nat, outputStride: nat)
    returns (hr: HResult)
    requires input != null ==> inputSize <= input.Length
    requires output != null ==> outputSize <= output.Length
    requires input == null || input != output
    requires input != null && output != null && SizesAccepted(width, height, inputSize, outputSize) ==>
               Layout(width, height, inputSize, inputStride, outputSize, outputStride)
    modifies output
    ensures hr == E_INVALIDARG <==> input == null || output == null
    ensures hr == E_UNEXPECTED <==>
              input != null && output != null && !SizesAccepted(width, height, inputSize, outputSize)
    ensures hr == E_INVALIDARG || hr == E_UNEXPECTED || hr == S_OK
    ensures hr != S_OK ==> output == null || output[..] == old(output[..])
    ensures hr == S_OK ==>
              input != null && output != null &&
              output[..] == Nv12Image(input[..], inputStride, width, height, old(output[..]), outputStride)
  {
    if input == null || output == null {
      return E_INVALIDARG;
    }
    if width * 4 * height > inputSize || width * height * 3 / 2 > outputSize {
      return E_UNEXPECTED;
    }
    ConvertFrame(input, inputStride, width, height, output, outputStride);
    return S_OK;
  }

  /* ---------- what the converted frame holds ---------- */

  /** Every pixel of the image the converter reads lies inside the input. */
  lemma PixelInBounds(width: nat, height: nat, inputLen: nat, inputStride: nat,
                      outputLen: nat, outputStride: nat, r: nat, c: nat)
    requires Layout(width, height, inputLen, inputStride, outputLen, outputStride)
    requires r < height && c < Columns(width)
    ensures Mul(r, inputStride) + 4 * c + 4 <= inputLen
  {
    MulMonotone(r, height - 1, inputStride);
  }

  /** Byte (r, c) of the output is cell (r, c) of the converted frame. */
  lemma Nv12FrameAt(luma: Plane, chroma: Plane, width: nat, height: nat,
                    orig: seq<Byte>, outputStride: nat, r: nat, c: nat)
    requires c < outputStride && Mul(r, outputStride) + c < |orig|
    ensures Nv12Frame(luma, chroma, width, height, orig, outputStride)[Mul(r, outputStride) + c]
         == Nv12Cell(luma, chroma, width, height, r, c, orig[Mul(r, outputStride) + c])
  {
    RowColOf(r, c, outputStride);
  }

  /** Output rows below the chroma plane's end lie inside the output. */
  lemma OutputRowInBounds(width: nat, height: nat, inputLen: nat, inputStride: nat,
                          outputLen: nat, outputStride: nat, r: nat, c: nat)
    requires Layout(width, height, inputLen, inputStride, outputLen, outputStride)
    requires r < height + height / 2 && c < Columns(width)
    ensures Mul(r, outputStride) + c < outputLen
  {
    MulMonotone(r + 1, height + height / 2, outputStride);
  }

  /** Luma cell (r, c) of a frame, for a row of a complete row pair and a
      written column, is the luma plane's (r, c). */
  lemma LumaCellAt(luma: Plane, chroma: Plane, width: nat, height: nat,
                   orig: seq<Byte>, outputStride: nat, r: nat, c: nat)
    requires c < Columns(width) <= outputStride && Mul(r, outputStride) + c < |orig|
    requires r < LumaRows(height)
    ensures Nv12Frame(luma, chroma, width, height, orig, outputStride)[Mul(r, outputStride) + c]
         == luma(r, c)
  {
    Nv12FrameAt(luma, chroma, width, height, orig, outputStride, r, c);
  }

  /** Cell c of chroma row j (output row height + j) is the chroma plane's
      byte c of source row 2j + 1. */
  lemma ChromaCellAt(luma: Plane, chroma: Plane, width: nat, height: nat,
                     orig: seq<Byte>, outputStride: nat, j: nat, c: nat)
    requires c < Columns(width) <= outputStride && Mul(height + j, outputStride) + c < |orig|
    requires j < height / 2
    ensures Nv12Frame(luma, chroma, width, height, orig, outputStride)[Mul(height + j, outputStride) + c]
         == chroma(2 * j + 1, c)
  {
    Nv12FrameAt(luma, chroma, width, height, orig, outputStride, height + j, c);
  }

  /** Luma byte (r, c) of the NV12 frame is the luma of source pixel
      (r, c), for every row of a complete row pair and every written column. */
  lemma LumaOfPixel(inp: seq<Byte>, inputStride: nat, width: nat, height: nat,
                    orig: seq<Byte>, outputStride: nat, r: nat, c: nat)
    requires Layout(width, height, |inp|, inputStride, |orig|, outputStride)
    requires r < LumaRows(height) && c < Columns(width)
    ensures Mul(r, outputStride) + c < |orig|
    ensures Mul(r, inputStride) + 4 * c + 4 <= |inp|
    ensures
      var base := Mul(r, inputStride) + 4 * c;
      Nv12Image(inp, inputStride, width, height, orig, outputStride)[Mul(r, outputStride) + c]
        == Rgb24ToY(inp[base + 2], inp[base + 1], inp[base])
  {
    PixelInBounds(width, height, |inp|, inputStride, |orig|, outputStride, r, c);
    OutputRowInBounds(width, height, |inp|, inputStride, |orig|, outputStride, r, c);
    var luma := LumaPlane(inp, inputStride);
    LumaCellAt(luma, ChromaPlane(inp, inputStride), width, height, orig, outputStride, r, c);
    assert luma(r, c) == LumaAt(inp, inputStride, r, c);
  }

  /** Chroma row j of the NV12 frame (output row height + j) holds, at each
      even column c, the U and then the V of source pixel (2j + 1, c): the
      lower-left pixel of its 2x2 block. */
  lemma ChromaOfPixel(inp: seq<Byte>, inputStride: nat, width: nat, height: nat,
                      orig: seq<Byte>, outputStride: nat, j: nat, c: nat)
    requires Layout(width, height, |inp|, inputStride, |orig|, outputStride)
    requires j < height / 2 && c % 2 == 0 && c < Columns(width)
    ensures Mul(height + j, outputStride) + c + 1 < |orig|
    ensures Mul(2 * j + 1, inputStride) + 4 * c + 4 <= |inp|
    ensures
      var base := Mul(2 * j + 1, inputStride) + 4 * c;
      var at := Mul(height + j, outputStride) + c;
      var p := Rgb24ToYuy2(inp[base + 2], inp[base + 1], inp[base]);
      Nv12Image(inp, inputStride, width, height, orig, outputStride)[at] == p.u &&
      Nv12Image(inp, inputStride, width, height, orig, outputStride)[at + 1] == p.v
  {
    PairInColumns(c, width);
    PixelInBounds(width, height, |inp|, inputStride, |orig|, outputStride, 2 * j + 1, c);
    OutputRowInBounds(width, height, |inp|, inputStride, |orig|, outputStride, height + j, c + 1);
    ChromaPairOfPixel(inp, inputStride, width, height, orig, outputStride, j, c);
  }

  /** ChromaOfPixel once the bounds are known. */
  lemma ChromaPairOfPixel(inp: seq<Byte>, inputStride: nat, width: nat, height: nat,
                          orig: seq<Byte>, outputStride: nat, j: nat, c: nat)
    requires j < height / 2 && c % 2 == 0 && c + 1 < Columns(width) <= outputStride
    requires Mul(height + j, outputStride) + c + 1 < |orig|
    requires Mul(2 * j + 1, inputStride) + 4 * c + 4 <= |inp|
    ensures
      var base := Mul(2 * j + 1, inputStride) + 4 * c;
      var at := Mul(height + j, outputStride) + c;
      var p := Rgb24ToYuy2(inp[base + 2], inp[base + 1], inp[base]);
      Nv12Image(inp, inputStride, width, height, orig, outputStride)[at] == p.u &&
      Nv12Image(inp, inputStride, width, height, orig, outputStride)[at + 1] == p.v
  {
    ChromaImagePair(inp, inputStride, width, height, orig, outputStride, j, c);
  }

  /** The chroma pair at even column c of chroma row j, by input offset. */
  lemma ChromaImagePair(inp: seq<Byte>, inputStride: nat, width: nat, height: nat,
                        orig: seq<Byte>, outputStride: nat, j: nat, c: nat)
    requires j < height / 2 && c % 2 == 0 && c + 1 < Columns(width) <= outputStride
    requires Mul(height + j, outputStride) + c + 1 < |orig|
    ensures
      var base := Mul(2 * j + 1, inputStride) + 4 * c;
      var at := Mul(height + j, outputStride) + c;
      Nv12Image(inp, inputStride, width, height, orig, outputStride)[at] == ChromaAtOffset(inp, base, false) &&
      Nv12Image(inp, inputStride, width, height, orig, outputStride)[at + 1] == ChromaAtOffset(inp, base, true)
  {
    ChromaImageAt(inp, inputStride, width, height, orig, outputStride, j, c);
    ChromaImageAt(inp, inputStride, width, height, orig, outputStride, j, c + 1);
    BlockPixels(inp, inputStride, 2 * j + 1, c);
  }

  /** Cell c of chroma row j of the converted image is the chroma byte c
      computed from source row 2j + 1. */
  lemma ChromaImageAt(inp: seq<Byte>, inputStride: nat, width: nat, height: nat,
                      orig: seq<Byte>, outputStride: nat, j: nat, c: nat)
    requires c < Columns(width) <= outputStride && Mul(height + j, outputStride) + c < |orig|
    requires j < height / 2
    ensures Nv12Image(inp, inputStride, width, height, orig, outputStride)[Mul(height + j, outputStride) + c]
         == ChromaAt(inp, inputStride, 2 * j + 1, c)
  {
    var chroma := ChromaPlane(inp, inputStride);
    ChromaCellAt(LumaPlane(inp, inputStride), chroma, width, height, orig, outputStride, j, c);
    assert chroma(2 * j + 1, c) == ChromaAt(inp, inputStride, 2 * j + 1, c);
  }

  /** The converter leaves alone the stride padding right of the written
      columns, an odd last source row, and everything below the chroma plane. */
  lemma OutsideUntouched(inp: seq<Byte>, inputStride: nat, width: nat, height: nat,
                         orig: seq<Byte>, outputStride: nat, r: nat, c: nat)
    requires c < outputStride && Mul(r, outputStride) + c < |orig|
    requires c >= Columns(width) || LumaRows(height) <= r < height || r >= height + height / 2
    ensures Nv12Image(inp, inputStride, width, height, orig, outputStride)[Mul(r, outputStride) + c]
         == orig[Mul(r, outputStride) + c]
  {
    Nv12FrameAt(LumaPlane(inp, inputStride), ChromaPlane(inp, inputStride), width, height, orig, outputStride, r, c);
  }

  /** A uniformly grey image (every byte `g`, black and white included)
      converts to luma Rgb24ToY(g, g, g) in every luma cell ... */
  lemma GreyLuma(inp: seq<Byte>, inputStride: nat, width: nat, height: nat,
                 orig: seq<Byte>, outputStride: nat, g: Byte, r: nat, c: nat)
    requires Layout(width, height, |inp|, inputStride, |orig|, outputStride)
    requires forall i :: 0 <= i < |inp| ==> inp[i] == g
    requires r < LumaRows(height) && c < Columns(width)
    ensures Mul(r, outputStride) + c < |orig|
    ensures Nv12Image(inp, inputStride, width, height, orig, outputStride)[Mul(r, outputStride) + c]
         == Rgb24ToY(g, g, g)
  {
    LumaOfPixel(inp, inputStride, width, height, orig, outputStride, r, c);
    var base := Mul(r, inputStride) + 4 * c;
    assert inp[base] == g && inp[base + 1] == g && inp[base + 2] == g;
  }

  /** ... and to neutral chroma 128 in every chroma cell. */
  lemma GreyChroma(inp: seq<Byte>, inputStride: nat, width: nat, height: nat,
                   orig: seq<Byte>, outputStride: nat, g: Byte, j: nat, c: nat)
    requires Layout(width, height, |inp|, inputStride, |orig|, outputStride)
    requires forall i :: 0 <= i < |inp| ==> inp[i] == g
    requires j < height / 2 && c < Columns(width)
    ensures Mul(height + j, outputStride) + c < |orig|
    ensures Nv12Image(inp, inputStride, width, height, orig, outputStride)[Mul(height + j, outputStride) + c] == 128
  {
    var c0 := c - c % 2;
    assert c0 % 2 == 0 && (c == c0 || c == c0 + 1);
    ChromaOfPixel(inp, inputStride, width, height, orig, outputStride, j, c0);
    var base := Mul(2 * j + 1, inputStride) + 4 * c0;
    assert inp[base] == g && inp[base + 1] == g && inp[base + 2] == g;
    GreyIsNeutral(g);
  }

  /** With no rows there is nothing to convert. */
  lemma ZeroHeightUnchanged(inp: seq<Byte>, inputStride: nat, width: nat,
                            orig: seq<Byte>, outputStride: nat)
    ensures Nv12Image(inp, inputStride, width, 0, orig, outputStride) == orig
  {
    var a := Nv12Image(inp, inputStride, width, 0, orig, outputStride);
    forall k | 0 <= k < |orig|
      ensures a[k] == orig[k]
    {
      assert a[k] == Nv12ByteAt(LumaPlane(inp, inputStride), ChromaPlane(inp, inputStride), width, 0,
                                orig, outputStride, k);
    }
  }

  /* ---------- the size checks and the row loop with 32-bit integers ---------- */

  /** The size checks as the source evaluates them: `width * 4 * height` and
      `width * height` are 32-bit unsigned products; the second is then
      scaled by 1.5 in double precision and truncated. */
  predicate SizesAcceptedAsWritten(width: nat, height: nat, inputSize: nat, outputSize: nat)
    requires width < UINT32_LIMIT && height < UINT32_LIMIT
  {
    !((width * 4 * height) % UINT32_LIMIT > inputSize) &&
    !(((width * height) % UINT32_LIMIT) * 3 / 2 > outputSize)
  }

  /** The bound of the source's row loop: `height - 1` on an unsigned int. */
  function RowLoopBoundAsWritten(height: nat): (bound: nat)
    requires height < UINT32_LIMIT
    ensures height >= 1 ==> bound == height - 1
  {
    (height - 1) % UINT32_LIMIT
  }

  /** A 32768 x 32768 image passes the size checks as written with an input of
      declared size 0: the 4 GiB product wraps to 0. */
  lemma GuardWrapAsWritten()
    ensures SizesAcceptedAsWritten(32768, 32768, 0, 1610612736)
    ensures !SizesAccepted(32768, 32768, 0, 1610612736)
  {
  }

  /** Below the wrap, the size checks as written are the intended ones. */
  lemma GuardAgreesBelowWrap(width: nat, height: nat, inputSize: nat, outputSize: nat)
    requires width < UINT32_LIMIT && height < UINT32_LIMIT
    requires width * 4 * height < UINT32_LIMIT
    ensures SizesAcceptedAsWritten(width, height, inputSize, outputSize)
        <==> SizesAccepted(width, height, inputSize, outputSize)
  {
    var area := width * height;
    assert width * 4 * height == 4 * area;
    assert (width * 4 * height) % UINT32_LIMIT == width * 4 * height;
    assert area % UINT32_LIMIT == area;
  }

  /** A zero height passes both checks whatever the buffers, and then the
      row loop as written has bound 2^32 - 1: every even 32-bit `h` is
      below it and `h += 2` wraps from 2^32 - 2 back to 0, so the loop
      never ends on its own. Its first turn already reads source rows 0
      and 1, which a zero-size input does not hold. */
  lemma ZeroHeightAsWritten(width: nat)
    requires width < UINT32_LIMIT
    ensures SizesAcceptedAsWritten(width, 0, 0, 0)
    ensures RowLoopBoundAsWritten(0) == UINT32_LIMIT - 1
  {
  }

  /** For every positive height the loop condition the method uses,
      `h + 1 < height`, is the source's `h < height - 1`. */
  lemma RowLoopAgrees(height: nat, h: nat)
    requires 1 <= height < UINT32_LIMIT
    ensures h < RowLoopBoundAsWritten(height) <==> h + 1 < height
  {
  }
}
