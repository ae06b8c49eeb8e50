/** For which sizes the result of the spatial distortion is the sum whatever the pixels are. */
module DistortionSizes {
  import opened Arithmetic
  import opened Distortion
  import opened MachineInts
  import opened Simd
  import opened S = SpatialDistortion

  // How many squares of 255 stay below 2 to the power 31.
  const MOST_PIXELS := 33025

  // The signed 32-bit result, widened to 64 bits, is the sum.
  ghost predicate SignedExact(b: Bytes, inputOffset: nat, reconOffset: nat, width: nat, height: nat)
    requires b.Planes().Has(inputOffset, reconOffset, width, height)
  {
    var e := BlockError(b.Planes(), inputOffset, reconOffset, width, height);
    W64(S32(W32(e))) == e
  }

  lemma {:induction false} BytesApart(b: Bytes)
    ensures Apart(b.Planes(), 0xFF * 0xFF)
  {
    hide Sq;
    var p := b.Planes();
    forall i, j | 0 <= i < |p.input| && 0 <= j < |p.recon|
      ensures Sq(p.input[i], p.recon[j]) <= 0xFF * 0xFF
    {
      ByteSquare(b.input[i], b.recon[j]);
    }
  }

  // Up to that many pixels fit, all blocks of at most 128 by 128 among them.
  lemma {:induction false} SmallBlocksExact(b: Bytes, inputOffset: nat, reconOffset: nat, width: nat, height: nat)
    requires b.Planes().Has(inputOffset, reconOffset, width, height) && width * height <= MOST_PIXELS
    ensures SignedExact(b, inputOffset, reconOffset, width, height)
  {
    hide Sq, Apart, Planes.Has, BlockError, W64, W32, S32;
    BytesApart(b);
    BlockAtMost(b.Planes(), inputOffset, reconOffset, width, height, 0xFF * 0xFF);
    assert 0xFF * 0xFF * width * height == 0xFF * 0xFF * (width * height);
    SignedIsExact(BlockError(b.Planes(), inputOffset, reconOffset, width, height));
  }

  // ----- the other sizes -----

  // Rows of 255 against rows of 0, and equal rows below them.
  function Contrast(stride: nat, height: nat, rows: nat): (b: Bytes)
    ensures |b.input| == |b.recon| == stride * height && b.inputStride == b.reconStride == stride
  {
    Bytes(seq(stride * height, i => if i < stride * rows then 0xFF else 0), stride, seq(stride * height, i => 0),
          stride)
  }

  lemma {:induction false} EvenError(x: seq<int>, y: seq<int>, d: nat)
    requires |x| == |y| && forall i :: 0 <= i < |x| ==> Sq(x[i], y[i]) == d
    ensures Error(x, y) == d * |x|
    decreases |x|
  {
    hide Sq;
    if x != [] {
      EvenError(x[1..], y[1..], d);
      assert d * |x| == d * |x[1..]| + d;
    }
  }

  lemma {:induction false} ContrastHas(stride: nat, height: nat, rows: nat, at: nat, width: nat, n: nat)
    requires at + width <= stride && n <= height
    ensures Contrast(stride, height, rows).Planes().Has(at, at, width, n)
  {
    if n > 0 {
      assert stride * height == Offset(height, stride);
      OffsetNext(n - 1, stride);
      MulMonotone(n, height, stride);
    }
  }

  lemma {:induction false} ContrastRow(stride: nat, height: nat, rows: nat, width: nat, r: nat)
    requires width <= stride && r < height
    ensures Offset(r, stride) + width <= stride * height
    ensures RowError(Contrast(stride, height, rows).Planes(), Offset(r, stride), Offset(r, stride), width)
         == if r < rows then 0xFF * 0xFF * width else 0
  {
    var p, at, d := Contrast(stride, height, rows).Planes(), Offset(r, stride), if r < rows then 0xFF * 0xFF else 0;
    OffsetNext(r, stride);
    MulMonotone(r + 1, height, stride);
    if r < rows {
      MulMonotone(r + 1, rows, stride);
    } else {
      MulMonotone(rows, r, stride);
    }
    var x, y := p.input[at..at + width], p.recon[at..at + width];
    forall i | 0 <= i < width
      ensures Sq(x[i], y[i]) == d
    {
      assert x[i] == (if at + i < stride * rows then 0xFF else 0) && y[i] == 0;
    }
    EvenError(x, y, d);
  }

  lemma {:induction false} ContrastError(stride: nat, height: nat, rows: nat, width: nat, n: nat)
    requires width <= stride && n <= height
    ensures Contrast(stride, height, rows).Planes().Has(0, 0, width, n)
    ensures BlockError(Contrast(stride, height, rows).Planes(), 0, 0, width, n) == 0xFF * 0xFF * width * Min(n, rows)
    decreases n
  {
    hide RowError, Contrast, Offset;
    ContrastHas(stride, height, rows, 0, width, n);
    if n > 0 {
      ContrastError(stride, height, rows, width, n - 1);
      ContrastRow(stride, height, rows, width, n - 1);
      var d := 0xFF * 0xFF * width;
      assert d * n == d * (n - 1) + d;
    }
  }

  lemma {:induction false} ContrastInMemory(stride: nat, height: nat, rows: nat, width: nat)
    requires width % 4 == 0 && width - width % 32 + Read(width % 32) <= stride
    ensures InMemory(Contrast(stride, height, rows), 0, 0, width, height)
  {
    hide Planes.Has;
    var whole := width - width % 32;
    ContrastHas(stride, height, rows, 0, whole, height);
    ContrastHas(stride, height, rows, whole, Read(width % 32), height);
    ContrastHas(stride, height, rows, 0, width, height);
  }

  // One pixel more is too many: so many rows of contrast that the sum passes 31 bits, and no more than needed.
  lemma {:induction false} LargeBlockLost(width: nat, height: nat)
    requires width < 160 && width % 4 == 0 && width * height > MOST_PIXELS
    ensures
      var b := Contrast(160, height, Min(height, MOST_PIXELS + 1));
      InMemory(b, 0, 0, width, height) && !SignedExact(b, 0, 0, width, height)
  {
    hide BlockError, Planes.Has, Contrast, W64, S32, W32, Read;
    var rows: nat := Min(height, MOST_PIXELS + 1);
    ReadFits(width);
    ContrastInMemory(160, height, rows, width);
    ContrastError(160, height, rows, width, height);
    var pixels := width * rows;
    assert pixels > MOST_PIXELS by {
      if height > MOST_PIXELS { MulAtLeast(width, rows); }
    }
    MulMonotone(width, 160, rows);
    assert 0xFF * 0xFF * width * rows == 0xFF * 0xFF * pixels;
    SignedIsExact(0xFF * 0xFF * pixels);
  }

  lemma {:induction false} ReadFits(width: nat)
    requires width < 160 && width % 4 == 0
    ensures width - width % 32 + Read(width % 32) <= 160
  {
  }

  /** Below 160 columns the result is the sum for all pixels exactly for sizes of at most 33025 pixels. */
  lemma {:induction false} SizeExactWhen(width: nat, height: nat)
    requires width < 160 && Shape(width, height)
    ensures
      (forall b: Bytes, i: nat, r: nat :: InMemory(b, i, r, width, height) ==> SignedExact(b, i, r, width, height))
      <==> width * height <= MOST_PIXELS
  {
    hide SignedExact;
    if width * height <= MOST_PIXELS {
      forall b: Bytes, i: nat, r: nat | InMemory(b, i, r, width, height)
        ensures SignedExact(b, i, r, width, height)
      {
        SmallBlocksExact(b, i, r, width, height);
      }
    } else {
      LargeBlockLost(width, height);
    }
  }

  // A plane of 128 by 264 pixels that differ by 255: the kernel returns 2197324800 - 2^32, modulo 2^64.
  method LostPlane() returns (distortion: u64)
    ensures
      var b := Contrast(128, 264, 264);
      && InMemory(b, 0, 0, 128, 264) && BlockError(b.Planes(), 0, 0, 128, 264) == 2_197_324_800
      && distortion == W64(-2_097_642_496) == 18_446_744_071_611_909_120
  {
    hide BlockError, Planes.Has, Contrast;
    ContrastInMemory(128, 264, 264, 128);
    ContrastError(128, 264, 264, 128, 264);
    distortion := SpatialDistortion(Contrast(128, 264, 264), 0, 0, 128, 264);
  }

  // From 160 columns on every plane of a picture the encoder accepts has its plain sum.
  lemma {:induction false} WidePlanesExact(b: Bytes, inputOffset: nat, reconOffset: nat, width: nat, height: nat)
    requires b.Planes().Has(inputOffset, reconOffset, width, height) && width <= 4096 && height <= 2160
    ensures LanesFit(width, height)
    ensures var e := BlockError(b.Planes(), inputOffset, reconOffset, width, height); W64(e) == e
  {
    hide Sq, Apart, Planes.Has, BlockError, W64;
    BytesApart(b);
    BlockAtMost(b.Planes(), inputOffset, reconOffset, width, height, 0xFF * 0xFF);
    MulMonotone(0xFF * 0xFF * width, 0xFF * 0xFF * 4096, height);
    Stored64(BlockError(b.Planes(), inputOffset, reconOffset, width, height));
  }
}
