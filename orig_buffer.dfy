/**
 * fillOrigYUVBuffer: the lossless-mode copy of a CU's source samples into the CU's own
 * original-sample planes.  The source planes are strided (each row starts stride samples after
 * the previous one); the destination planes are packed (each row starts right after the
 * previous one).  Row addresses that advance row by row become array positions.
 */
module OrigBuffer {
  import opened Common

  type Pixel = nat

  /** The start of row y of a strided plane: y * stride, accumulated row by row as the
      source row address advances. */
  function RowStart(stride: nat, y: nat): nat
  {
    if y == 0 then 0 else RowStart(stride, y - 1) + stride
  }

  lemma {:induction false} RowStartIsProduct(stride: nat, y: nat)
    ensures RowStart(stride, y) == y * stride
  {
    if y > 0 {
      RowStartIsProduct(stride, y - 1);
    }
  }

  lemma {:induction false} RowStartMonotone(stride: nat, y: nat, z: nat)
    requires y <= z
    ensures RowStart(stride, y) <= RowStart(stride, z)
  {
    if y < z {
      RowStartMonotone(stride, y, z - 1);
    }
  }

  /** Every row of a width x height block read with the given stride lies inside s. */
  predicate RowsFit(s: seq<Pixel>, stride: nat, width: nat, height: nat)
  {
    height == 0 || RowStart(stride, height - 1) + width <= |s|
  }

  /** The packed copy of a width x height block read from s with the given row stride: row y
      of the result is s[y * stride .. y * stride + width]. */
  function Packed(s: seq<Pixel>, stride: nat, width: nat, height: nat): seq<Pixel>
    requires RowsFit(s, stride, width, height)
  {
    if height == 0 then []
    else Packed(s, stride, width, height - 1) + s[RowStart(stride, height - 1) .. RowStart(stride, height - 1) + width]
  }

  /** The packed block holds width * height samples. */
  lemma {:induction false} PackedLength(s: seq<Pixel>, stride: nat, width: nat, height: nat)
    requires RowsFit(s, stride, width, height)
    ensures |Packed(s, stride, width, height)| == width * height
  {
    if height > 0 {
      PackedLength(s, stride, width, height - 1);
      assert width * height == width * (height - 1) + width;
    }
  }

  /** The packed block of fewer rows fits and is no longer. */
  lemma {:induction false} PackedGrows(s: seq<Pixel>, stride: nat, width: nat, y: nat, height: nat)
    requires y <= height && RowsFit(s, stride, width, height)
    ensures RowsFit(s, stride, width, y)
    ensures |Packed(s, stride, width, y)| <= |Packed(s, stride, width, height)|
  {
    if y < height {
      if height >= 2 {
        RowStartMonotone(stride, height - 2, height - 1);
      }
      PackedGrows(s, stride, width, y, height - 1);
    }
  }

  /** The packed block of fewer rows is a prefix of the packed block. */
  lemma {:induction false} PackedPrefix(s: seq<Pixel>, stride: nat, width: nat, y: nat, height: nat)
    requires y <= height && RowsFit(s, stride, width, height)
    ensures RowsFit(s, stride, width, y)
    ensures |Packed(s, stride, width, y)| <= |Packed(s, stride, width, height)|
    ensures Packed(s, stride, width, height)[..|Packed(s, stride, width, y)|] == Packed(s, stride, width, y)
  {
    if y < height {
      if height >= 2 {
        RowStartMonotone(stride, height - 2, height - 1);
      }
      PackedPrefix(s, stride, width, y, height - 1);
      var p, q := Packed(s, stride, width, y), Packed(s, stride, width, height - 1);
      assert Packed(s, stride, width, height)[..|q|] == q;
    }
  }

  /** Sample x of row y of the packed block is sample x of row y of the strided source. */
  lemma PackedIndex(s: seq<Pixel>, stride: nat, width: nat, height: nat, y: nat, x: nat)
    requires RowsFit(s, stride, width, height)
    requires y < height && x < width
    ensures y * width + x < width * height == |Packed(s, stride, width, height)| && y * stride + x < |s|
    ensures Packed(s, stride, width, height)[y * width + x] == s[y * stride + x]
  {
    PackedLength(s, stride, width, height);
    PackedPrefix(s, stride, width, y + 1, height);
    PackedLength(s, stride, width, y);
    RowStartMonotone(stride, y, height - 1);
    RowStartIsProduct(stride, y);
    var p := Packed(s, stride, width, y + 1);
    assert |p| == y * width + width;
    assert p[y * width + x] == s[RowStart(stride, y) + x];
  }

  lemma MulLeq(a: nat, b: nat, k: nat)
    requires a <= b
    ensures a * k <= b * k
  {
  }

  /** With the stride equal to the width, row y starts where the first y packed rows end. */
  lemma {:induction false} ContiguousRows(s: seq<Pixel>, width: nat, y: nat)
    requires RowsFit(s, width, width, y)
    ensures Packed(s, width, width, y) == s[..RowStart(width, y)]
  {
    if y > 0 {
      if y >= 2 {
        RowStartMonotone(width, y - 2, y - 1);
      }
      ContiguousRows(s, width, y - 1);
      assert s[..RowStart(width, y)] == s[..RowStart(width, y - 1)] + s[RowStart(width, y - 1) .. RowStart(width, y - 1) + width];
    }
  }

  /** A source whose stride equals the width is already packed: the copy is the identity on
      its first width * height samples. */
  lemma PackedContiguous(s: seq<Pixel>, width: nat, height: nat)
    requires width * height <= |s|
    ensures RowsFit(s, width, width, height)
    ensures Packed(s, width, width, height) == s[..width * height]
  {
    RowStartIsProduct(width, height);
    if height > 0 {
      RowStartIsProduct(width, height - 1);
      assert RowStart(width, height) == RowStart(width, height - 1) + width;
    }
    ContiguousRows(s, width, height);
  }

  /** Row row of a destination after copying width samples from src at srcPos to dstPos. */
  ghost predicate RowCopied(dst: seq<Pixel>, old_: seq<Pixel>, src: seq<Pixel>, srcPos: nat, dstPos: nat, width: nat)
    requires |dst| == |old_| && srcPos + width <= |src|
  {
    forall k :: 0 <= k < |dst| ==>
      dst[k] == if dstPos <= k < dstPos + width then src[srcPos + (k - dstPos)] else old_[k]
  }

  /** The inner luma loop: copies one row of width samples. */
  method CopyRow(src: array<Pixel>, srcPos: nat, dst: array<Pixel>, dstPos: nat, width: nat)
    requires src != dst
    requires srcPos + width <= src.Length && dstPos + width <= dst.Length
    modifies dst
    ensures RowCopied(dst[..], old(dst[..]), src[..], srcPos, dstPos, width)
  {
    var x := 0;
    while x < width
      invariant x <= width
      invariant RowCopied(dst[..], old(dst[..]), src[..], srcPos, dstPos, x)
    {
      dst[dstPos + x] := src[srcPos + x];
      x := x + 1;
    }
  }

  /** After y rows, the destination holds the packed rows followed by its old contents. */
  ghost predicate RowsCopied(dst: seq<Pixel>, old_: seq<Pixel>, packed: seq<Pixel>)
    requires |dst| == |old_|
  {
    forall k :: 0 <= k < |dst| ==> dst[k] == if k < |packed| then packed[k] else old_[k]
  }

  /** Copying row y next to the first y packed rows gives the first y + 1 packed rows. */
  lemma RowsCopiedStep(d0: seq<Pixel>, d1: seq<Pixel>, start: seq<Pixel>, s: seq<Pixel>,
                       stride: nat, width: nat, y: nat)
    requires |d0| == |d1| == |start|
    requires RowsFit(s, stride, width, y + 1)
    requires RowsFit(s, stride, width, y)
    requires RowsCopied(d0, start, Packed(s, stride, width, y))
    requires RowCopied(d1, d0, s, RowStart(stride, y), |Packed(s, stride, width, y)|, width)
    ensures RowsCopied(d1, start, Packed(s, stride, width, y + 1))
  {
  }

  /** Once every packed sample is in place, the destination is the packing followed by the
      untouched rest of its old contents. */
  lemma RowsCopiedAll(dst: seq<Pixel>, start: seq<Pixel>, packed: seq<Pixel>)
    requires |dst| == |start| && |packed| <= |dst| && RowsCopied(dst, start, packed)
    ensures dst == packed + start[|packed|..]
  {
    assert forall k :: 0 <= k < |dst| ==> dst[k] == (packed + start[|packed|..])[k];
  }

  /** The state of a plane copy after y rows: the source position is at row y, the destination
      position just after the y packed rows, and those rows are in place over the old contents. */
  ghost predicate Progress(dst: seq<Pixel>, start: seq<Pixel>, s: seq<Pixel>, stride: nat, width: nat,
                           y: nat, srcPos: nat, dstPos: nat)
  {
    && |dst| == |start| && RowsFit(s, stride, width, y)
    && srcPos == RowStart(stride, y) && dstPos == |Packed(s, stride, width, y)|
    && RowsCopied(dst, start, Packed(s, stride, width, y))
  }

  /** Before the first row nothing is copied. */
  lemma ProgressStart(dst: seq<Pixel>, s: seq<Pixel>, stride: nat, width: nat)
    ensures Progress(dst, dst, s, stride, width, 0, 0, 0)
  {
  }

  /** After the last row the destination is the packed block followed by its old contents. */
  lemma ProgressEnd(dst: seq<Pixel>, start: seq<Pixel>, s: seq<Pixel>, stride: nat, width: nat,
                    height: nat, srcPos: nat, dstPos: nat)
    requires Progress(dst, start, s, stride, width, height, srcPos, dstPos) && dstPos <= |dst|
    ensures RowsFit(s, stride, width, height)
    ensures dst == Packed(s, stride, width, height) + start[|Packed(s, stride, width, height)|..]
  {
    RowsCopiedAll(dst, start, Packed(s, stride, width, height));
  }

  /** Before row y of height, both the source row and its packed place are in bounds. */
  lemma ProgressBounds(dst: seq<Pixel>, start: seq<Pixel>, s: seq<Pixel>, stride: nat, width: nat,
                       y: nat, height: nat, srcPos: nat, dstPos: nat)
    requires Progress(dst, start, s, stride, width, y, srcPos, dstPos)
    requires y < height && RowsFit(s, stride, width, height)
    requires |Packed(s, stride, width, height)| <= |dst|
    ensures srcPos + width <= |s| && dstPos + width <= |dst|
  {
    PackedGrows(s, stride, width, y + 1, height);
    PackedGrows(s, stride, width, y, y + 1);
  }

  /** Copying row y to its packed place advances the copy by one row. */
  lemma ProgressStep(d0: seq<Pixel>, d1: seq<Pixel>, start: seq<Pixel>, s: seq<Pixel>, stride: nat, width: nat,
                     y: nat, height: nat, srcPos: nat, dstPos: nat)
    requires Progress(d0, start, s, stride, width, y, srcPos, dstPos)
    requires y < height && RowsFit(s, stride, width, height)
    requires |d1| == |d0| && srcPos + width <= |s|
    requires RowCopied(d1, d0, s, srcPos, dstPos, width)
    ensures Progress(d1, start, s, stride, width, y + 1, srcPos + stride, dstPos + width)
  {
    PackedGrows(s, stride, width, y + 1, height);
    PackedGrows(s, stride, width, y, y + 1);
    RowsCopiedStep(d0, d1, start, s, stride, width, y);
  }

  /** One pass of the luma loop: row y is copied after the first y packed rows. */
  method CopyNextRow(src: array<Pixel>, ghost s: seq<Pixel>, srcStride: nat, srcPos: nat,
                     dst: array<Pixel>, ghost start: seq<Pixel>, dstPos: nat, width: nat, y: nat,
                     ghost height: nat)
    requires src != dst && src[..] == s
    requires y < height && RowsFit(s, srcStride, width, height)
    requires |Packed(s, srcStride, width, height)| <= dst.Length
    requires Progress(dst[..], start, s, srcStride, width, y, srcPos, dstPos)
    modifies dst
    ensures Progress(dst[..], start, s, srcStride, width, y + 1, srcPos + srcStride, dstPos + width)
  {
    ProgressBounds(dst[..], start, s, srcStride, width, y, height, srcPos, dstPos);
    ghost var d0 := dst[..];
    CopyRow(src, srcPos, dst, dstPos, width);
    ProgressStep(d0, dst[..], start, s, srcStride, width, y, height, srcPos, dstPos);
  }

  /** The luma loop: height rows of width samples, the source advancing by its stride and the
      destination by the width. */
  method CopyPlane(src: array<Pixel>, srcStride: nat, dst: array<Pixel>, width: nat, height: nat)
    requires src != dst
    requires RowsFit(src[..], srcStride, width, height)
    requires |Packed(src[..], srcStride, width, height)| <= dst.Length
    modifies dst
    ensures dst[..] == Packed(src[..], srcStride, width, height) + old(dst[|Packed(src[..], srcStride, width, height)|..])
  {
    ghost var s, start := src[..], dst[..];
    var srcPos: nat, dstPos: nat := 0, 0;
    var y := 0;
    ProgressStart(start, s, srcStride, width);
    while y < height
      invariant y <= height && src[..] == s
      invariant Progress(dst[..], start, s, srcStride, width, y, srcPos, dstPos)
    {
      CopyNextRow(src, s, srcStride, srcPos, dst, start, dstPos, width, y, height);
      dstPos := dstPos + width;
      srcPos := srcPos + srcStride;
      y := y + 1;
    }
    ProgressEnd(dst[..], start, s, srcStride, width, height, srcPos, dstPos);
  }

  /** The inner chroma loop: copies one row of both chroma planes. */
  method CopyRowPair(srcCb: array<Pixel>, srcCr: array<Pixel>, srcPos: nat,
                     dstCb: array<Pixel>, dstCr: array<Pixel>, dstPos: nat, width: nat)
    requires dstCb != dstCr && dstCb != srcCb && dstCb != srcCr && dstCr != srcCb && dstCr != srcCr
    requires srcPos + width <= srcCb.Length && srcPos + width <= srcCr.Length
    requires dstPos + width <= dstCb.Length && dstPos + width <= dstCr.Length
    modifies dstCb, dstCr
    ensures RowCopied(dstCb[..], old(dstCb[..]), srcCb[..], srcPos, dstPos, width)
    ensures RowCopied(dstCr[..], old(dstCr[..]), srcCr[..], srcPos, dstPos, width)
  {
    var x := 0;
    while x < width
      invariant x <= width
      invariant RowCopied(dstCb[..], old(dstCb[..]), srcCb[..], srcPos, dstPos, x)
      invariant RowCopied(dstCr[..], old(dstCr[..]), srcCr[..], srcPos, dstPos, x)
    {
      dstCb[dstPos + x] := srcCb[srcPos + x];
      dstCr[dstPos + x] := srcCr[srcPos + x];
      x := x + 1;
    }
  }

  /** One pass of the chroma loop: row y of both planes is copied after their first y packed
      rows. */
  method CopyNextRowPair(srcCb: array<Pixel>, srcCr: array<Pixel>, ghost sb: seq<Pixel>, ghost sr: seq<Pixel>,
                         srcStride: nat, srcPos: nat, dstCb: array<Pixel>, dstCr: array<Pixel>,
                         ghost startCb: seq<Pixel>, ghost startCr: seq<Pixel>, dstPos: nat, width: nat, y: nat,
                         ghost height: nat)
    requires dstCb != dstCr && dstCb != srcCb && dstCb != srcCr && dstCr != srcCb && dstCr != srcCr
    requires srcCb[..] == sb && srcCr[..] == sr
    requires y < height && RowsFit(sb, srcStride, width, height) && RowsFit(sr, srcStride, width, height)
    requires |Packed(sb, srcStride, width, height)| <= dstCb.Length
    requires |Packed(sr, srcStride, width, height)| <= dstCr.Length
    requires Progress(dstCb[..], startCb, sb, srcStride, width, y, srcPos, dstPos)
    requires Progress(dstCr[..], startCr, sr, srcStride, width, y, srcPos, dstPos)
    modifies dstCb, dstCr
    ensures Progress(dstCb[..], startCb, sb, srcStride, width, y + 1, srcPos + srcStride, dstPos + width)
    ensures Progress(dstCr[..], startCr, sr, srcStride, width, y + 1, srcPos + srcStride, dstPos + width)
  {
    ProgressBounds(dstCb[..], startCb, sb, srcStride, width, y, height, srcPos, dstPos);
    ProgressBounds(dstCr[..], startCr, sr, srcStride, width, y, height, srcPos, dstPos);
    ghost var b0, r0 := dstCb[..], dstCr[..];
    CopyRowPair(srcCb, srcCr, srcPos, dstCb, dstCr, dstPos, width);
    ProgressStep(b0, dstCb[..], startCb, sb, srcStride, width, y, height, srcPos, dstPos);
    ProgressStep(r0, dstCr[..], startCr, sr, srcStride, width, y, height, srcPos, dstPos);
  }

  /** The chroma loop: both planes in one pass, sharing the chroma stride and size. */
  method CopyPlanePair(srcCb: array<Pixel>, srcCr: array<Pixel>, srcStride: nat,
                       dstCb: array<Pixel>, dstCr: array<Pixel>, width: nat, height: nat)
    requires dstCb != dstCr && dstCb != srcCb && dstCb != srcCr && dstCr != srcCb && dstCr != srcCr
    requires RowsFit(srcCb[..], srcStride, width, height) && RowsFit(srcCr[..], srcStride, width, height)
    requires |Packed(srcCb[..], srcStride, width, height)| <= dstCb.Length
    requires |Packed(srcCr[..], srcStride, width, height)| <= dstCr.Length
    modifies dstCb, dstCr
    ensures dstCb[..] == Packed(srcCb[..], srcStride, width, height) + old(dstCb[|Packed(srcCb[..], srcStride, width, height)|..])
    ensures dstCr[..] == Packed(srcCr[..], srcStride, width, height) + old(dstCr[|Packed(srcCr[..], srcStride, width, height)|..])
  {
    ghost var sb, sr := srcCb[..], srcCr[..];
    ghost var startCb, startCr := dstCb[..], dstCr[..];
    var srcPos: nat, dstPos: nat := 0, 0;
    var y := 0;
    ProgressStart(startCb, sb, srcStride, width);
    ProgressStart(startCr, sr, srcStride, width);
    while y < height
      invariant y <= height && srcCb[..] == sb && srcCr[..] == sr
      invariant Progress(dstCb[..], startCb, sb, srcStride, width, y, srcPos, dstPos)
      invariant Progress(dstCr[..], startCr, sr, srcStride, width, y, srcPos, dstPos)
    {
      CopyNextRowPair(srcCb, srcCr, sb, sr, srcStride, srcPos, dstCb, dstCr, startCb, startCr, dstPos, width, y, height);
      dstPos := dstPos + width;
      srcPos := srcPos + srcStride;
      y := y + 1;
    }
    ProgressEnd(dstCb[..], startCb, sb, srcStride, width, height, srcPos, dstPos);
    ProgressEnd(dstCr[..], startCr, sr, srcStride, width, height, srcPos, dstPos);
  }

  /** n >> shift: n halved shift times, rounding down, as the chroma block size is derived
      from the luma size. */
  function Shifted(n: nat, shift: nat): nat
  {
    if shift == 0 then n else Shifted(n / 2, shift - 1)
  }

  /**
   * fillOrigYUVBuffer for a CU of n = 2^log2Size luma samples a side with the given chroma
   * shifts: the n x n luma block and the two (n >> hShift) x (n >> vShift) chroma blocks are
   * copied from the strided source planes into the CU's packed planes.
   */
  method FillOrigYUV(log2Size: nat, hShift: nat, vShift: nat,
                     srcY: array<Pixel>, srcStride: nat, srcCb: array<Pixel>, srcCr: array<Pixel>, srcStrideC: nat,
                     dstY: array<Pixel>, dstCb: array<Pixel>, dstCr: array<Pixel>)
    requires log2Size < 31
    requires dstY != srcY && dstY != srcCb && dstY != srcCr && dstY != dstCb && dstY != dstCr
    requires dstCb != dstCr && dstCb != srcCb && dstCb != srcCr && dstCr != srcCb && dstCr != srcCr
    requires RowsFit(srcY[..], srcStride, Pow2(log2Size), Pow2(log2Size))
    requires Pow2(log2Size) * Pow2(log2Size) <= dstY.Length
    requires RowsFit(srcCb[..], srcStrideC, Shifted(Pow2(log2Size), hShift), Shifted(Pow2(log2Size), vShift))
    requires RowsFit(srcCr[..], srcStrideC, Shifted(Pow2(log2Size), hShift), Shifted(Pow2(log2Size), vShift))
    requires Shifted(Pow2(log2Size), hShift) * Shifted(Pow2(log2Size), vShift) <= dstCb.Length
    requires Shifted(Pow2(log2Size), hShift) * Shifted(Pow2(log2Size), vShift) <= dstCr.Length
    modifies dstY, dstCb, dstCr
    ensures var n := Pow2(log2Size);
      dstY[..] == Packed(old(srcY[..]), srcStride, n, n) + old(dstY[n * n..])
    ensures var w, h := Shifted(Pow2(log2Size), hShift), Shifted(Pow2(log2Size), vShift);
      && dstCb[..] == Packed(old(srcCb[..]), srcStrideC, w, h) + old(dstCb[w * h..])
      && dstCr[..] == Packed(old(srcCr[..]), srcStrideC, w, h) + old(dstCr[w * h..])
  {
    var width := Pow2(log2Size);
    var height := Pow2(log2Size);
    PackedLength(srcY[..], srcStride, width, height);
    CopyPlane(srcY, srcStride, dstY, width, height);
    var widthC := Shifted(width, hShift);
    var heightC := Shifted(height, vShift);
    PackedLength(srcCb[..], srcStrideC, widthC, heightC);
    PackedLength(srcCr[..], srcStrideC, widthC, heightC);
    CopyPlanePair(srcCb, srcCr, srcStrideC, dstCb, dstCr, widthC, heightC);
  }
}
