/** Image loops of the Kinect package: moving pointers against rows and columns. */
module Kinect {

  type Byte = x: int | 0 <= x < 256

  /** Rows before row `y` end where row `y` begins, or earlier. */
  lemma RowsBefore(v: nat, y: nat, step: nat)
    requires v < y
    ensures v * step + step <= y * step
  {
    var more := y - v - 1;
    assert more * step >= 0;
    assert y * step == (v + 1 + more) * step == v * step + step + more * step;
  }

  lemma NextRow(y: nat, step: nat)
    ensures (y + 1) * step == y * step + step
  {
  }

  /** Every row of pixels lies in the image data. */
  predicate RowsInside(size: nat, height: nat, step: nat, rowBytes: nat) {
    forall y :: 0 <= y < height ==> RowInside(size, step, rowBytes, y)
  }

  predicate RowInside(size: nat, step: nat, rowBytes: nat, y: nat) {
    y * step + rowBytes <= size
  }

  /** The output bytes at `d` are the `n` source bytes at `s`, followed by `pad`. */
  predicate SameBytes(out: seq<Byte>, d: nat, data: seq<Byte>, s: nat, n: nat, pad: seq<Byte>) {
    d + n + |pad| <= |out| && s + n <= |data| && out[d..d + n + |pad|] == data[s..s + n] + pad
  }

  /** Pixel `x` of the row that starts at `s0` is pixel `x` of the row that starts at `d0`. */
  predicate PixelAt(out: seq<Byte>, d0: nat, data: seq<Byte>, s0: nat, n: nat, pad: seq<Byte>, x: nat) {
    SameBytes(out, d0 + (n + |pad|) * x, data, s0 + n * x, n, pad)
  }

  /** Pixel (`x`, `y`) of the source is pixel (`x`, `y`) of the output, whose rows have `outStep` bytes. */
  predicate Copied(out: seq<Byte>, outStep: nat, data: seq<Byte>, step: nat, n: nat, pad: seq<Byte>, y: nat, x: nat) {
    PixelAt(out, y * outStep, data, y * step, n, pad, x)
  }

  lemma StillSame(was: seq<Byte>, now: seq<Byte>, limit: nat, d: nat, data: seq<Byte>, s: nat, n: nat, pad: seq<Byte>)
    requires SameBytes(was, d, data, s, n, pad) && d + n + |pad| <= limit
    requires |now| == |was| && limit <= |was| && now[..limit] == was[..limit]
    ensures SameBytes(now, d, data, s, n, pad)
  {
    assert now[d..d + n + |pad|] == now[..limit][d..d + n + |pad|];
  }

  lemma StillCopied(was: seq<Byte>, now: seq<Byte>, outStep: nat, data: seq<Byte>, step: nat, n: nat, pad: seq<Byte>,
                    y: nat, v: nat, x: nat)
    requires v < y && (n + |pad|) * x + n + |pad| <= outStep && Copied(was, outStep, data, step, n, pad, v, x)
    requires |now| == |was| && y * outStep <= |was| && now[..y * outStep] == was[..y * outStep]
    ensures Copied(now, outStep, data, step, n, pad, v, x)
  {
    RowsBefore(v, y, outStep);
    StillSame(was, now, y * outStep, v * outStep + (n + |pad|) * x, data, v * step + n * x, n, pad);
  }

  /** The first `rows` rows, `width` pixels each. */
  ghost predicate RowsCopied(out: seq<Byte>, outStep: nat, data: seq<Byte>, step: nat, n: nat, pad: seq<Byte>, width: nat, rows: nat) {
    forall v, x :: 0 <= v < rows && 0 <= x < width ==> Copied(out, outStep, data, step, n, pad, v, x)
  }

  lemma PixelInRow(x: nat, width: nat, n: nat)
    requires x < width
    ensures n * x + n <= n * width
  {
    RowsBefore(x, width, n);
  }

  /** A row is added behind those that are copied already. */
  lemma RowAdded(was: seq<Byte>, now: seq<Byte>, d0: nat, outStep: nat, data: seq<Byte>, s0: nat, step: nat,
                 n: nat, pad: seq<Byte>, width: nat, y: nat)
    requires RowsCopied(was, outStep, data, step, n, pad, width, y)
    requires outStep == (n + |pad|) * width && d0 == y * outStep && s0 == y * step
    requires |now| == |was| && d0 <= |was| && now[..d0] == was[..d0]
    requires forall x :: 0 <= x < width ==> PixelAt(now, d0, data, s0, n, pad, x)
    ensures RowsCopied(now, outStep, data, step, n, pad, width, y + 1)
  {
    forall v, x | 0 <= v < y + 1 && 0 <= x < width
      ensures Copied(now, outStep, data, step, n, pad, v, x)
    {
      if v < y {
        PixelInRow(x, width, n + |pad|);
        StillCopied(was, now, outStep, data, step, n, pad, y, v, x);
      } else {
        assert PixelAt(now, d0, data, s0, n, pad, x);
      }
    }
  }

  // ---------------------------------------------------------------------------
  // convertFromIplImageToQImage

  /** `memcpy` of one row. */
  method CopyRow(data: seq<Byte>, src: nat, out: array<Byte>, dst: nat, width: nat)
    requires dst + width <= out.Length && src + width <= |data|
    modifies out
    ensures forall x :: 0 <= x < width ==> PixelAt(out[..], dst, data, src, 1, [], x)
    ensures out[..dst] == old(out[..dst])
  {
    forall i | 0 <= i < width {
      out[dst + i] := data[src + i];
    }
    forall x | 0 <= x < width
      ensures PixelAt(out[..], dst, data, src, 1, [], x)
    {
      assert out[dst + x] == data[src + x];
    }
  }

  /** Depth 8U, one channel: one `memcpy` per row. */
  method ConvertGray(data: seq<Byte>, width: nat, height: nat, widthStep: nat) returns (out: array<Byte>)
    requires RowsInside(|data|, height, widthStep, width)
    ensures fresh(out) && out.Length == height * width
    ensures forall y, x :: 0 <= y < height && 0 <= x < width ==> Copied(out[..], width, data, widthStep, 1, [], y, x)
  {
    out := new Byte[height * width](_ => 0);
    var dst, src := 0, 0;
    for y := 0 to height
      invariant dst == y * width && src == y * widthStep
      invariant RowsCopied(out[..], width, data, widthStep, 1, [], width, y)
    {
      assert RowInside(|data|, widthStep, width, y);
      RowsBefore(y, height, width);
      ghost var was := out[..];
      CopyRow(data, src, out, dst, width);
      RowAdded(was, out[..], dst, width, data, src, widthStep, 1, [], width, y);
      NextRow(y, width);
      NextRow(y, widthStep);
      dst, src := dst + width, src + widthStep;
    }
  }

  method CopyPixel(data: seq<Byte>, src: nat, out: array<Byte>, dst: nat)
    requires dst + 4 <= out.Length && src + 3 <= |data|
    modifies out
    ensures SameBytes(out[..], dst, data, src, 3, [0])
    ensures out[..dst] == old(out[..dst]) && out[dst + 4..] == old(out[dst + 4..])
  {
    out[dst] := data[src];
    out[dst + 1] := data[src + 1];
    out[dst + 2] := data[src + 2];
    out[dst + 3] := 0;
    assert out[dst..dst + 4] == data[src..src + 3] + [0];
  }

  /** One row of the three-channel case: four bytes out for three in. */
  method ConvertColorRow(data: seq<Byte>, src0: nat, out: array<Byte>, dst0: nat, width: nat)
    requires dst0 + 4 * width <= out.Length && src0 + 3 * width <= |data|
    modifies out
    ensures forall x :: 0 <= x < width ==> PixelAt(out[..], dst0, data, src0, 3, [0], x)
    ensures out[..dst0] == old(out[..dst0]) && out[dst0 + 4 * width..] == old(out[dst0 + 4 * width..])
  {
    var dst, src := dst0, src0;
    for x := 0 to width
      invariant dst == dst0 + 4 * x && src == src0 + 3 * x
      invariant forall v :: 0 <= v < x ==> PixelAt(out[..], dst0, data, src0, 3, [0], v)
      invariant out[..dst0] == old(out[..dst0]) && out[dst..] == old(out[dst..])
    {
      ghost var was := out[..];
      CopyPixel(data, src, out, dst);
      forall v | 0 <= v <= x
        ensures PixelAt(out[..], dst0, data, src0, 3, [0], v)
      {
        if v < x {
          assert PixelAt(was, dst0, data, src0, 3, [0], v);
          StillSame(was, out[..], dst, dst0 + 4 * v, data, src0 + 3 * v, 3, [0]);
        }
      }
      dst, src := dst + 4, src + 3;
    }
  }

  /** Depth 8U, three channels. */
  method ConvertColor(data: seq<Byte>, width: nat, height: nat, widthStep: nat) returns (out: array<Byte>)
    requires RowsInside(|data|, height, widthStep, 3 * width)
    ensures fresh(out) && out.Length == height * (4 * width)
    ensures forall y, x :: 0 <= y < height && 0 <= x < width ==> Copied(out[..], 4 * width, data, widthStep, 3, [0], y, x)
  {
    ghost var row := 4 * width;
    out := new Byte[height * (4 * width)](_ => 0);
    var dst, src: int := 0, 0;
    assert out.Length == height * row;
    for y := 0 to height
      invariant dst == y * row && src == y * widthStep
      invariant RowsCopied(out[..], row, data, widthStep, 3, [0], width, y)
    {
      assert RowInside(|data|, widthStep, 3 * width, y);
      RowsBefore(y, height, row);
      ghost var was := out[..];
      ConvertColorRow(data, src, out, dst, width);
      RowAdded(was, out[..], dst, row, data, src, widthStep, 3, [0], width, y);
      NextRow(y, row);
      NextRow(y, widthStep);
      dst, src := dst + 4 * width, src + 3 * width;
      src := src + (widthStep - 3 * width);
    }
  }

  /** The 16-bit word at word address `k`, little endian. */
  function WordAt(data: seq<Byte>, k: nat): nat
    requires 2 * k + 1 < |data|
  {
    data[2 * k] as int + 256 * (data[2 * k + 1] as int)
  }

  /** Output byte `d` is the high byte of word `k`. */
  predicate HighByte(out: seq<Byte>, d: nat, data: seq<Byte>, k: nat) {
    d < |out| && 2 * k + 1 < |data| && out[d] == WordAt(data, k) / 256
  }

  /** The output byte of pixel (`x`, `y`) comes from the word the pointer reached. */
  predicate Shifted(out: seq<Byte>, width: nat, data: seq<Byte>, half: nat, y: nat, x: nat) {
    ShiftedAt(out, y * width, data, y * half, x)
  }

  predicate ShiftedAt(out: seq<Byte>, d0: nat, data: seq<Byte>, k0: nat, x: nat) {
    HighByte(out, d0 + x, data, k0 + x)
  }

  /** What the conversion of a 16-bit image makes of its first `rows` rows. */
  ghost predicate RowsShifted(out: seq<Byte>, width: nat, data: seq<Byte>, half: nat, rows: nat) {
    forall y, x :: 0 <= y < rows && 0 <= x < width ==> Shifted(out, width, data, half, y, x)
  }

  lemma ShiftedRowAdded(was: seq<Byte>, now: seq<Byte>, width: nat, data: seq<Byte>, half: nat, y: nat)
    requires RowsShifted(was, width, data, half, y)
    requires y * width <= |was| <= |now| && now[..y * width] == was[..y * width]
    requires forall x :: 0 <= x < width ==> Shifted(now, width, data, half, y, x)
    ensures RowsShifted(now, width, data, half, y + 1)
  {
    forall v, x | 0 <= v < y + 1 && 0 <= x < width
      ensures Shifted(now, width, data, half, v, x)
    {
      if v < y {
        StillShifted(was, now, width, data, half, y, v, x);
      }
    }
  }

  method ShiftRow(data: seq<Byte>, src0: nat, out: array<Byte>, dst0: nat, width: nat)
    requires dst0 + width <= out.Length && 2 * (src0 + width) <= |data|
    modifies out
    ensures forall x :: 0 <= x < width ==> ShiftedAt(out[..], dst0, data, src0, x)
    ensures out[..dst0] == old(out[..dst0])
  {
    var dst, src := dst0, src0;
    for x := 0 to width
      invariant dst == dst0 + x && src == src0 + x
      invariant forall u :: 0 <= u < x ==> ShiftedAt(out[..], dst0, data, src0, u)
      invariant out[..dst0] == old(out[..dst0])
    {
      ghost var was := out[..];
      out[dst] := WordAt(data, src) / 256;
      forall u | 0 <= u <= x
        ensures ShiftedAt(out[..], dst0, data, src0, u)
      {
        assert u < x ==> ShiftedAt(was, dst0, data, src0, u);
      }
      dst, src := dst + 1, src + 1;
    }
  }

  /** Depth 16U: the high byte of each word, with the pointer advanced in whole words. */
  method ConvertDepth(data: seq<Byte>, width: nat, height: nat, widthStep: nat) returns (out: array<Byte>)
    requires RowsInside(|data|, height, widthStep, 2 * width)
    ensures fresh(out) && out.Length == height * width
    ensures RowsShifted(out[..], width, data, widthStep / 2, height)
  {
    out := new Byte[height * width](_ => 0);
    var dst, src: int := 0, 0;
    for y := 0 to height
      invariant dst == y * width && src == y * (widthStep / 2)
      invariant RowsShifted(out[..], width, data, widthStep / 2, y)
    {
      assert RowInside(|data|, widthStep, 2 * width, y);
      RowsBefore(y, height, width);
      HalfStep(y, widthStep);
      ghost var was := out[..];
      ShiftRow(data, src, out, dst, width);
      ShiftedRowAdded(was, out[..], width, data, widthStep / 2, y);
      NextRow(y, width);
      NextRow(y, widthStep / 2);
      dst, src := dst + width, src + width;
      src := src + (widthStep / 2 - width);
    }
  }

  lemma StillShifted(was: seq<Byte>, now: seq<Byte>, width: nat, data: seq<Byte>, half: nat, y: nat, v: nat, x: nat)
    requires v < y && x < width && Shifted(was, width, data, half, v, x)
    requires y * width <= |was| <= |now| && now[..y * width] == was[..y * width]
    ensures Shifted(now, width, data, half, v, x)
  {
    RowsBefore(v, y, width);
    assert now[v * width + x] == now[..y * width][v * width + x];
  }

  /** How far the pointer lags behind the row, in bytes. */
  lemma HalfStep(y: nat, widthStep: nat)
    ensures y * widthStep == 2 * (y * (widthStep / 2)) + y * (widthStep % 2)
    ensures y * (widthStep % 2) >= 0
  {
    assert widthStep == 2 * (widthStep / 2) + widthStep % 2;
    assert y * widthStep == y * (2 * (widthStep / 2)) + y * (widthStep % 2);
  }

  /** The byte that ends up in the output: the pixel's high byte, less one for every row above
      when rows have an odd number of bytes. */
  lemma {:induction false} DepthByte(out: seq<Byte>, width: nat, data: seq<Byte>, widthStep: nat, y: nat, x: nat)
    requires Shifted(out, width, data, widthStep / 2, y, x)
    ensures var at := y * widthStep + 2 * x + 1 - y * (widthStep % 2);
            0 <= at < |data| && out[y * width + x] == data[at]
  {
    HalfStep(y, widthStep);
  }

  /** Output and input of the conversion of a 16-bit image. */
  ghost predicate Converted(out: seq<Byte>, data: seq<Byte>, width: nat, height: nat, widthStep: nat) {
    && RowsInside(|data|, height, widthStep, 2 * width)
    && |out| == height * width && RowsShifted(out, width, data, widthStep / 2, height)
  }

  /** The output byte of pixel (`x`, `y`) is the high byte of that pixel. */
  predicate PixelRight(out: seq<Byte>, data: seq<Byte>, width: nat, widthStep: nat, y: nat, x: nat) {
    var d, s := y * width + x, y * widthStep + 2 * x + 1;
    d < |out| && s < |data| && out[d] == data[s]
  }

  ghost predicate AllRight(out: seq<Byte>, data: seq<Byte>, width: nat, height: nat, widthStep: nat) {
    forall y, x :: 0 <= y < height && 0 <= x < width ==> PixelRight(out, data, width, widthStep, y, x)
  }

  /** The conversion is right for every image of this shape. */
  ghost predicate DepthRight(width: nat, height: nat, widthStep: nat) {
    forall out, data :: Converted(out, data, width, height, widthStep) ==> AllRight(out, data, width, height, widthStep)
  }

  /** Every output byte is the high byte of its own pixel, for all images of a shape, exactly when
      the rows have an even number of bytes, or there is at most one row, or no column. */
  lemma DepthRightIff(width: nat, height: nat, widthStep: nat)
    ensures DepthRight(width, height, widthStep) <==> widthStep % 2 == 0 || height <= 1 || width == 0
  {
    if widthStep % 2 == 0 || height <= 1 || width == 0 {
      forall out, data | Converted(out, data, width, height, widthStep)
        ensures AllRight(out, data, width, height, widthStep)
      {
        EvenRows(out, data, width, height, widthStep);
      }
    } else {
      var out, data := OddRows(width, height, widthStep);
      assert !AllRight(out, data, width, height, widthStep);
    }
  }

  lemma EvenRows(out: seq<Byte>, data: seq<Byte>, width: nat, height: nat, widthStep: nat)
    requires Converted(out, data, width, height, widthStep) && (widthStep % 2 == 0 || height <= 1 || width == 0)
    ensures AllRight(out, data, width, height, widthStep)
  {
    forall y, x | 0 <= y < height && 0 <= x < width
      ensures PixelRight(out, data, width, widthStep, y, x)
    {
      assert Shifted(out, width, data, widthStep / 2, y, x);
      DepthByte(out, width, data, widthStep, y, x);
      assert y * (widthStep % 2) == 0;
    }
  }

  /** The word reached for pixel (`x`, `y`) lies in the image. */
  lemma WordInside(size: nat, width: nat, height: nat, widthStep: nat, y: nat, x: nat)
    requires RowsInside(size, height, widthStep, 2 * width) && y < height && x < width
    ensures 2 * (y * (widthStep / 2) + x) + 1 < size
  {
    assert RowInside(size, widthStep, 2 * width, y);
    HalfStep(y, widthStep);
  }

  function HighByteOf(data: seq<Byte>, k: nat): Byte {
    if 2 * k + 1 < |data| then data[2 * k + 1] else 0
  }

  /** The conversion of the first `rows` rows. */
  function ConvertedRows(data: seq<Byte>, width: nat, half: nat, rows: nat): seq<Byte> {
    if rows == 0 then []
    else
      ConvertedRows(data, width, half, rows - 1)
      + seq<Byte>(width, x requires 0 <= x < width => HighByteOf(data, (rows - 1) * half + x))
  }

  /** There is an output for every image. */
  lemma {:induction false} Convertible(data: seq<Byte>, width: nat, height: nat, widthStep: nat, rows: nat)
    requires RowsInside(|data|, height, widthStep, 2 * width) && rows <= height
    ensures |ConvertedRows(data, width, widthStep / 2, rows)| == rows * width
    ensures RowsShifted(ConvertedRows(data, width, widthStep / 2, rows), width, data, widthStep / 2, rows)
  {
    if rows > 0 {
      var y, half := rows - 1, widthStep / 2;
      var was, now := ConvertedRows(data, width, half, y), ConvertedRows(data, width, half, rows);
      Convertible(data, width, height, widthStep, y);
      NextRow(y, width);
      forall x | 0 <= x < width
        ensures Shifted(now, width, data, half, y, x)
      {
        WordInside(|data|, width, height, widthStep, y, x);
        assert now[y * width + x] == HighByteOf(data, y * half + x);
      }
      ShiftedRowAdded(was, now, width, data, half, y);
    }
  }

  /** An image with rows of odd length of which the first pixel of the second row comes out wrong. */
  lemma OddRows(width: nat, height: nat, widthStep: nat) returns (out: seq<Byte>, data: seq<Byte>)
    requires widthStep % 2 == 1 && height > 1 && width > 0
    ensures Converted(out, data, width, height, widthStep) && !PixelRight(out, data, width, widthStep, 1, 0)
  {
    var size := height * widthStep + 2 * width;
    data := seq(size, i requires 0 <= i < size => if i == widthStep + 1 then 1 else 0);
    forall y | 0 <= y < height ensures RowInside(|data|, widthStep, 2 * width, y) {
      RowsBefore(y, height, widthStep);
    }
    Convertible(data, width, height, widthStep, height);
    out := ConvertedRows(data, width, widthStep / 2, height);
    assert Shifted(out, width, data, widthStep / 2, 1, 0);
    DepthByte(out, width, data, widthStep, 1, 0);
  }

  /** One column of two rows of three bytes: the second pixel's low byte comes out. */
  lemma LowByte(out: seq<Byte>)
    requires Converted(out, [0, 1, 2, 3, 4], 1, 2, 3)
    ensures out == [1, 3] && !PixelRight(out, [0, 1, 2, 3, 4], 1, 3, 1, 0)
  {
    assert Shifted(out, 1, [0, 1, 2, 3, 4], 3 / 2, 0, 0) && Shifted(out, 1, [0, 1, 2, 3, 4], 3 / 2, 1, 0);
    DepthByte(out, 1, [0, 1, 2, 3, 4], 3, 0, 0);
    DepthByte(out, 1, [0, 1, 2, 3, 4], 3, 1, 0);
  }

  // ---------------------------------------------------------------------------
  // QKinect::update: the user mask

  /** What happens to the three bytes of a pixel: the new image, and the new blend texture. */
  function MaskImage(user: nat): Byte {
    if user != 0 then 255 else 0
  }

  function MaskBlend(user: nat, image: Byte, blend: Byte, background: seq<Byte>, i: nat): Byte {
    if user != 0 then image else if i < |background| then background[i] else blend
  }

  /** The mask loops.  The bounds of `x` and `y` are exchanged in the original; with a moving
      pointer every pixel is met once all the same.  An empty `background` is the NULL pointer. */
  method UpdateMask(labels: seq<nat>, image: array<Byte>, blend: array<Byte>, background: seq<Byte>,
                    width: nat, height: nat) returns (userFound: bool)
    requires |labels| >= width * height && image != blend
    requires image.Length >= 3 * (width * height) && blend.Length >= 3 * (width * height)
    requires |background| == 0 || |background| >= 3 * (width * height)
    modifies image, blend
    ensures userFound <==> exists i :: 0 <= i < width * height && labels[i] != 0
    ensures forall i :: 0 <= i < 3 * (width * height) ==> image[i] == MaskImage(labels[i / 3])
    ensures forall i :: 0 <= i < 3 * (width * height) ==>
              blend[i] == MaskBlend(labels[i / 3], old(image[i]), old(blend[i]), background, i)
    ensures image[3 * (width * height)..] == old(image[3 * (width * height)..])
    ensures blend[3 * (width * height)..] == old(blend[3 * (width * height)..])
  {
    userFound := false;
    var p := 0;   // pLabels; imagePtr, blend and background are at 3 * p
    for y := 0 to width
      invariant p == y * height
      invariant Masked(labels, image[..], blend[..], old(image[..]), old(blend[..]), background, p)
      invariant userFound <==> exists i :: 0 <= i < p && labels[i] != 0
    {
      RowsBefore(y, width, height);
      for x := 0 to height
        invariant p == y * height + x
        invariant Masked(labels, image[..], blend[..], old(image[..]), old(blend[..]), background, p)
        invariant userFound <==> exists i :: 0 <= i < p && labels[i] != 0
      {
        ghost var image1, blend1 := image[..], blend[..];
        MaskPixel(labels[p], image, blend, background, 3 * p);
        MaskedStep(labels, image1, blend1, image[..], blend[..], old(image[..]), old(blend[..]), background, p);
        if labels[p] != 0 {
          userFound := true;
        }
        p := p + 1;
      }
      NextRow(y, height);
    }
    assert width * height == p;
  }

  /** The first `p` pixels are done, the rest is as it was. */
  ghost predicate Masked(labels: seq<nat>, image: seq<Byte>, blend: seq<Byte>, image0: seq<Byte>, blend0: seq<Byte>,
                         background: seq<Byte>, p: nat)
  {
    && |image| == |image0| && |blend| == |blend0| && p <= |labels| && 3 * p <= |image| && 3 * p <= |blend|
    && MaskedImage(labels, image, p) && MaskedBlend(labels, blend, image0, blend0, background, p)
    && image[3 * p..] == image0[3 * p..]
    && blend[3 * p..] == blend0[3 * p..]
  }

  ghost predicate MaskedImage(labels: seq<nat>, image: seq<Byte>, p: nat)
    requires p <= |labels| && 3 * p <= |image|
  {
    forall i :: 0 <= i < 3 * p ==> image[i] == MaskImage(labels[i / 3])
  }

  ghost predicate MaskedBlend(labels: seq<nat>, blend: seq<Byte>, image0: seq<Byte>, blend0: seq<Byte>,
                              background: seq<Byte>, p: nat)
    requires p <= |labels| && 3 * p <= |blend| == |blend0| && 3 * p <= |image0|
  {
    forall i :: 0 <= i < 3 * p ==> blend[i] == MaskBlend(labels[i / 3], image0[i], blend0[i], background, i)
  }

  /** Only the pixel at `p` has changed. */
  ghost predicate Elsewhere(now: seq<Byte>, was: seq<Byte>, p: nat) {
    3 * p + 3 <= |now| == |was| && forall i :: 0 <= i < |was| && !(3 * p <= i < 3 * p + 3) ==> now[i] == was[i]
  }

  lemma RestKept(now: seq<Byte>, was: seq<Byte>, start: seq<Byte>, p: nat)
    requires Elsewhere(now, was, p) && |start| == |was| && was[3 * p..] == start[3 * p..]
    ensures now[3 * (p + 1)..] == start[3 * (p + 1)..]
    ensures forall i :: 3 * p <= i < |was| ==> was[i] == start[i]
  {
    forall i | 3 * p <= i < |was| ensures was[i] == start[i] {
      assert was[i] == was[3 * p..][i - 3 * p];
    }
  }

  lemma ImageStep(labels: seq<nat>, was: seq<Byte>, now: seq<Byte>, p: nat)
    requires p < |labels| && Elsewhere(now, was, p) && MaskedImage(labels, was, p)
    requires forall i :: 3 * p <= i < 3 * p + 3 ==> now[i] == MaskImage(labels[p])
    ensures MaskedImage(labels, now, p + 1)
  {
    forall i | 0 <= i < 3 * (p + 1) ensures now[i] == MaskImage(labels[i / 3]) {
      if i < 3 * p {
        assert now[i] == was[i];
      } else {
        assert i / 3 == p;
      }
    }
  }

  lemma BlendStep(labels: seq<nat>, was: seq<Byte>, now: seq<Byte>, image0: seq<Byte>, blend0: seq<Byte>,
                  background: seq<Byte>, p: nat)
    requires p < |labels| && Elsewhere(now, was, p) && |blend0| == |was| && 3 * p + 3 <= |image0|
    requires MaskedBlend(labels, was, image0, blend0, background, p)
    requires forall i :: 3 * p <= i < 3 * p + 3 ==> now[i] == MaskBlend(labels[p], image0[i], blend0[i], background, i)
    ensures MaskedBlend(labels, now, image0, blend0, background, p + 1)
  {
    forall i | 0 <= i < 3 * (p + 1)
      ensures now[i] == MaskBlend(labels[i / 3], image0[i], blend0[i], background, i)
    {
      if i < 3 * p {
        assert now[i] == was[i];
      } else {
        assert i / 3 == p;
      }
    }
  }

  lemma MaskedStep(labels: seq<nat>, image1: seq<Byte>, blend1: seq<Byte>, image2: seq<Byte>, blend2: seq<Byte>,
                   image0: seq<Byte>, blend0: seq<Byte>, background: seq<Byte>, p: nat)
    requires Masked(labels, image1, blend1, image0, blend0, background, p) && p < |labels|
    requires Elsewhere(image2, image1, p) && Elsewhere(blend2, blend1, p)
    requires forall i :: 3 * p <= i < 3 * p + 3 ==> image2[i] == MaskImage(labels[p])
    requires forall i :: 3 * p <= i < 3 * p + 3 ==> blend2[i] == MaskBlend(labels[p], image1[i], blend1[i], background, i)
    ensures Masked(labels, image2, blend2, image0, blend0, background, p + 1)
  {
    RestKept(image2, image1, image0, p);
    RestKept(blend2, blend1, blend0, p);
    ImageStep(labels, image1, image2, p);
    BlendStep(labels, blend1, blend2, image0, blend0, background, p);
  }

  /** The loop body: one pixel at the current pointers. */
  method MaskPixel(user: nat, image: array<Byte>, blend: array<Byte>, background: seq<Byte>, at: nat)
    requires image != blend && at + 3 <= image.Length && at + 3 <= blend.Length
    requires |background| == 0 || at + 3 <= |background|
    modifies image, blend
    ensures forall i :: at <= i < at + 3 ==> image[i] == MaskImage(user)
    ensures forall i :: at <= i < at + 3 ==> blend[i] == MaskBlend(user, old(image[i]), old(blend[i]), background, i)
    ensures forall i :: 0 <= i < image.Length && !(at <= i < at + 3) ==> image[i] == old(image[i])
    ensures forall i :: 0 <= i < blend.Length && !(at <= i < at + 3) ==> blend[i] == old(blend[i])
  {
    if user != 0 {
      blend[at] := image[at];
      blend[at + 1] := image[at + 1];
      blend[at + 2] := image[at + 2];
      image[at] := 255;
      image[at + 1] := 255;
      image[at + 2] := 255;
    } else {
      image[at] := 0;
      image[at + 1] := 0;
      image[at + 2] := 0;
      if |background| != 0 {
        blend[at] := background[at];
        blend[at + 1] := background[at + 1];
        blend[at + 2] := background[at + 2];
      }
    }
  }
}
