/** The distortion of blocks of words of at most 15 bits: lanes are emptied into 64 bits before they can wrap. */
module WordDistortion {
  import opened Arithmetic
  import opened Distortion
  import opened Lanes
  import opened MachineInts
  import opened Simd

  datatype Words = Words(input: seq<u16>, inputStride: nat, recon: seq<u16>, reconStride: nat) {
    ghost predicate Small() { Distortion.Small(input) && Distortion.Small(recon) }

    ghost function Planes(): Planes { Distortion.Planes.Planes(input, inputStride, recon, reconStride) }
  }

  // full_distortion_kernel16: sixteen words more.
  function Kernel16(x: seq<u16>, y: seq<u16>, sum: seq<u32>): (s: seq<u32>)
    requires |x| == |y| == 16 && |sum| == 8
    ensures |s| == 8
  {
    var diff := AbsWords(x, y);
    AddEpi32(sum, MaddEpi16(diff, diff))
  }

  // full_distortion_kernel4: four words more, in the high half.
  function Kernel4(x: seq<u16>, y: seq<u16>, sum: seq<u32>): (s: seq<u32>)
    requires |x| == |y| == 8 && |sum| == 8
    ensures |s| == 8
  {
    var diff := AbsWords(x, y);
    AddEpi32(sum, Zeros(4) + MaddEpi16(diff, diff))
  }

  // Lanes added without wrapping.
  lemma {:induction false} LanesAdd(sum: seq<u32>, d: seq<u32>, most: nat)
    requires |sum| == |d| && AtMost(sum, most) && AtMost(d, LANE_MOST) && most + LANE_MOST < 0x1_0000_0000
    ensures Total(AddEpi32(sum, d)) == Total(sum) + Total(d) && AtMost(AddEpi32(sum, d), most + LANE_MOST)
  {
    assert AddEpi32(sum, d) == Plus(sum, d);
    TotalPlus(sum, d);
  }

  lemma {:induction false} Kernel16Adds(x: seq<u16>, y: seq<u16>, sum: seq<u32>, most: nat)
    requires |x| == |y| == 16 && |sum| == 8 && Small(x) && Small(y) && AtMost(sum, most)
        && most + LANE_MOST < 0x1_0000_0000
    ensures Total(Kernel16(x, y, sum)) == Total(sum) + Error(x, y) && AtMost(Kernel16(x, y, sum), most + LANE_MOST)
  {
    hide AbsWords, MaddEpi16, AddEpi32, AreDifferences, PairErrors;
    AbsWordsAre(x, y);
    var diff := AbsWords(x, y);
    SquaresExact(diff, x, y);
    PairsTotal(x, y);
    LanesAdd(sum, MaddEpi16(diff, diff), most);
  }

  lemma {:induction false} Kernel4Adds(x: seq<u16>, y: seq<u16>, sum: seq<u32>)
    requires |x| == |y| == 8 && |sum| == 8 && Small(x) && Small(y) && AtMost(sum, 0)
    ensures Total(Kernel4(x, y, sum)) == Total(sum) + Error(x, y)
  {
    hide AbsWords, MaddEpi16, AddEpi32, AreDifferences, PairErrors;
    AbsWordsAre(x, y);
    var diff := AbsWords(x, y);
    SquaresExact(diff, x, y);
    PairsTotal(x, y);
    TotalConcat(Zeros(4), MaddEpi16(diff, diff));
    ZeroTotal(4);
    LanesAdd(sum, Zeros(4) + MaddEpi16(diff, diff), 0);
  }

  // ----- the words of a register -----

  lemma {:induction false} RegisterOf4(b: Words, inp: nat, rec: nat)
    requires inp + 4 <= |b.input| && rec + 4 <= |b.recon| && b.Small()
    ensures
      var x, y := LoadLow(b.input, inp, 4), LoadLow(b.recon, rec, 4);
      Small(x) && Small(y) && Error(x, y) == RowError(b.Planes(), inp, rec, 4)
  {
    var z: seq<u16> := Set1(0, 4);
    ErrorConcat(b.input[inp..inp + 4], b.recon[rec..rec + 4], z, z);
    ZeroError(4);
    assert z == Set1(0, 4);
  }

  lemma {:induction false} RegisterOfRow(b: Words, inp: nat, rec: nat, n: nat)
    requires inp + n <= |b.input| && rec + n <= |b.recon| && b.Small()
    ensures
      var x, y := Load(b.input, inp, n), Load(b.recon, rec, n);
      Small(x) && Small(y) && Error(x, y) == RowError(b.Planes(), inp, rec, n)
  {
  }

  // Eight words of two rows, and the twelve of one.
  function TwoRows(memory: seq<u16>, at: nat, stride: nat): (x: seq<u16>)
    requires at + stride + 8 <= |memory|
    ensures |x| == 16
  {
    SetM128i(Load(memory, at, 8), Load(memory, at + stride, 8))
  }

  function Twelve(memory: seq<u16>, at: nat): (x: seq<u16>)
    requires at + 12 <= |memory|
    ensures |x| == 16
  {
    SetM128i(Load(memory, at, 8), LoadLow(memory, at + 8, 4))
  }

  lemma {:induction false} SmallConcat(x: seq<int>, y: seq<int>)
    requires Small(x) && Small(y)
    ensures Small(x + y)
  {
  }

  lemma {:induction false} RegisterOf8(b: Words, inp: nat, rec: nat)
    requires inp + b.inputStride + 8 <= |b.input| && rec + b.reconStride + 8 <= |b.recon| && inp + 8 <= |b.input|
        && rec + 8 <= |b.recon|
    requires b.Small()
    ensures
      var x, y := TwoRows(b.input, inp, b.inputStride), TwoRows(b.recon, rec, b.reconStride);
      && Small(x) && Small(y)
      && Error(x, y) == RowError(b.Planes(), inp, rec, 8)
           + RowError(b.Planes(), inp + b.inputStride, rec + b.reconStride, 8)
  {
    hide RowError, Load, Small, Words.Small;
    var next, after := inp + b.inputStride, rec + b.reconStride;
    RegisterOfRow(b, inp, rec, 8);
    RegisterOfRow(b, next, after, 8);
    ErrorConcat(Load(b.input, next, 8), Load(b.recon, after, 8), Load(b.input, inp, 8), Load(b.recon, rec, 8));
    SmallConcat(Load(b.input, next, 8), Load(b.input, inp, 8));
    SmallConcat(Load(b.recon, after, 8), Load(b.recon, rec, 8));
  }

  lemma {:induction false} RegisterOf12(b: Words, inp: nat, rec: nat)
    requires inp + 12 <= |b.input| && rec + 12 <= |b.recon| && b.Small()
    ensures
      var x, y := Twelve(b.input, inp), Twelve(b.recon, rec);
      Small(x) && Small(y) && Error(x, y) == RowError(b.Planes(), inp, rec, 12)
  {
    hide RowError, Load, LoadLow, Small, Words.Small;
    RegisterOf4(b, inp + 8, rec + 8);
    RegisterOfRow(b, inp, rec, 8);
    ErrorConcat(LoadLow(b.input, inp + 8, 4), LoadLow(b.recon, rec + 8, 4), Load(b.input, inp, 8),
                Load(b.recon, rec, 8));
    SmallConcat(LoadLow(b.input, inp + 8, 4), Load(b.input, inp, 8));
    SmallConcat(LoadLow(b.recon, rec + 8, 4), Load(b.recon, rec, 8));
    SplitRow(b.Planes(), inp, rec, 12, 8);
  }

  // ----- one round: words read, accumulated and flushed -----

  lemma {:induction false} OneRound(x: seq<u16>, y: seq<u16>, sum64: seq<u64>, e: nat)
    requires |x| == |y| == 16 && Small(x) && Small(y) && Sums(sum64, e)
    ensures Sums(Flushed(Kernel16(x, y, Zeros(8)), sum64), e + Error(x, y))
  {
    hide Kernel16, Zeros, Small, AtMost, Sums;
    ZeroLanes();
    Kernel16Adds(x, y, Zeros(8), 0);
    FlushStep(Kernel16(x, y, Zeros(8)), sum64, e);
  }

  lemma {:induction false} ShortRound(x: seq<u16>, y: seq<u16>, sum64: seq<u64>, e: nat)
    requires |x| == |y| == 8 && Small(x) && Small(y) && Sums(sum64, e)
    ensures Sums(Flushed(Kernel4(x, y, Zeros(8)), sum64), e + Error(x, y))
  {
    hide Kernel4, Zeros, Small, AtMost, Sums;
    ZeroLanes();
    Kernel4Adds(x, y, Zeros(8));
    FlushStep(Kernel4(x, y, Zeros(8)), sum64, e);
  }

  // Two kernels before a flush still fit the lanes.
  lemma {:induction false} TwoRound(x: seq<u16>, y: seq<u16>, x2: seq<u16>, y2: seq<u16>, sum64: seq<u64>, e: nat)
    requires |x| == |y| == |x2| == |y2| == 16 && Small(x) && Small(y) && Small(x2) && Small(y2) && Sums(sum64, e)
    ensures Sums(Flushed(Kernel16(x2, y2, Kernel16(x, y, Zeros(8))), sum64), e + Error(x, y) + Error(x2, y2))
  {
    hide Kernel16, Zeros, Small, AtMost, Sums;
    ZeroLanes();
    Kernel16Adds(x, y, Zeros(8), 0);
    Kernel16Adds(x2, y2, Kernel16(x, y, Zeros(8)), LANE_MOST);
    FlushStep(Kernel16(x2, y2, Kernel16(x, y, Zeros(8))), sum64, e);
  }

  // ----- the kernel -----

  // Columns left of a multiple of sixteen: four, eight or twelve.
  method Leftover(b: Words, atIn: nat, atRe: nat, leftover: nat, height: nat) returns (sum64: seq<u64>)
    requires b.Small() && height > 0 && b.Planes().Has(atIn, atRe, leftover, height)
    requires leftover in {4, 8, 12} && (leftover == 8 ==> height % 2 == 0)
    ensures Sums(sum64, BlockError(b.Planes(), atIn, atRe, leftover, height))
  {
    hide Flushed, Kernel4, Kernel16, LoadLow, TwoRows, Twelve, Words.Small, Small, RowError, BlockError, Offset,
        Planes.Has;
    ghost var p := b.Planes();
    NoRows(p, atIn, atRe, leftover);
    sum64 := [0, 0, 0, 0];
    var inp, rec := atIn, atRe;
    var y := 0;
    while y < height
      invariant y <= height && (leftover == 8 ==> y % 2 == 0)
      invariant p.Has(atIn, atRe, leftover, y) && inp == atIn + Offset(y, p.inputStride)
          && rec == atRe + Offset(y, p.reconStride)
      invariant Sums(sum64, BlockError(p, atIn, atRe, leftover, y))
    {
      NextRow(p, atIn, atRe, leftover, height, y);
      ghost var e := BlockError(p, atIn, atRe, leftover, y);
      var sum32 := Zeros(8);
      if leftover == 4 {
        RegisterOf4(b, inp, rec);
        var x, z := LoadLow(b.input, inp, 4), LoadLow(b.recon, rec, 4);
        ShortRound(x, z, sum64, e);
        sum32 := Kernel4(x, z, sum32);
        inp, rec, y := inp + b.inputStride, rec + b.reconStride, y + 1;
      } else if leftover == 8 {
        NextRow(p, atIn, atRe, leftover, height, y + 1);
        RegisterOf8(b, inp, rec);
        var x, z := TwoRows(b.input, inp, b.inputStride), TwoRows(b.recon, rec, b.reconStride);
        OneRound(x, z, sum64, e);
        sum32 := Kernel16(x, z, sum32);
        inp, rec, y := inp + 2 * b.inputStride, rec + 2 * b.reconStride, y + 2;
      } else {
        RegisterOf12(b, inp, rec);
        var x, z := Twelve(b.input, inp), Twelve(b.recon, rec);
        OneRound(x, z, sum64, e);
        sum32 := Kernel16(x, z, sum32);
        inp, rec, y := inp + b.inputStride, rec + b.reconStride, y + 1;
      }
      sum64 := Flushed(sum32, sum64);
    }
  }

  // Columns in whole sixteens: two rows, one row of 32 or sixteen words between flushes.
  method Sixteens(b: Words, atIn: nat, atRe: nat, width: nat, height: nat, sum: seq<u64>, ghost e: nat)
    returns (sum64: seq<u64>)
    requires b.Small() && b.Planes().Has(atIn, atRe, width, height) && Sums(sum, e)
    requires width > 0 && width % 16 == 0 && (width == 16 ==> height % 2 == 0)
    ensures Sums(sum64, e + BlockError(b.Planes(), atIn, atRe, width, height))
  {
    hide Flushed, Kernel16, Load, Words.Small, Small, RowError, BlockError, Offset, Planes.Has, Sums, Zeros;
    ghost var p := b.Planes();
    NoRows(p, atIn, atRe, width);
    sum64 := sum;
    var inp, rec := atIn, atRe;
    var y := 0;
    while y < height
      invariant y <= height && (width == 16 ==> y % 2 == 0)
      invariant p.Has(atIn, atRe, width, y) && inp == atIn + Offset(y, p.inputStride)
          && rec == atRe + Offset(y, p.reconStride)
      invariant Sums(sum64, e + BlockError(p, atIn, atRe, width, y))
    {
      NextRow(p, atIn, atRe, width, height, y);
      ghost var f := e + BlockError(p, atIn, atRe, width, y);
      if width == 16 {
        NextRow(p, atIn, atRe, width, height, y + 1);
        sum64 := Two(b, inp, rec, inp + b.inputStride, rec + b.reconStride, sum64, f);
        inp, rec, y := inp + 2 * b.inputStride, rec + 2 * b.reconStride, y + 2;
      } else {
        if width == 32 {
          SplitRow(p, inp, rec, 32, 16);
          sum64 := Two(b, inp, rec, inp + 16, rec + 16, sum64, f);
        } else {
          sum64 := WideRow(b, inp, rec, width, sum64, f);
        }
        inp, rec, y := inp + b.inputStride, rec + b.reconStride, y + 1;
      }
    }
  }

  // One kernel and a flush.
  method One(b: Words, inp: nat, rec: nat, sum: seq<u64>, ghost e: nat) returns (sum64: seq<u64>)
    requires b.Small() && inp + 16 <= |b.input| && rec + 16 <= |b.recon| && Sums(sum, e)
    ensures Sums(sum64, e + RowError(b.Planes(), inp, rec, 16))
  {
    hide Flushed, Kernel16, Load, Words.Small, Small, RowError, Sums, Zeros;
    FourLanes(sum, e);
    RegisterOfRow(b, inp, rec, 16);
    OneRound(Load(b.input, inp, 16), Load(b.recon, rec, 16), sum, e);
    sum64 := Flushed(Kernel16(Load(b.input, inp, 16), Load(b.recon, rec, 16), Zeros(8)), sum);
  }

  // Two kernels and a flush.
  method Two(b: Words, inp: nat, rec: nat, inp2: nat, rec2: nat, sum: seq<u64>, ghost e: nat) returns (sum64: seq<u64>)
    requires b.Small() && inp + 16 <= |b.input| && rec + 16 <= |b.recon| && inp2 + 16 <= |b.input|
        && rec2 + 16 <= |b.recon|
    requires Sums(sum, e)
    ensures Sums(sum64, e + RowError(b.Planes(), inp, rec, 16) + RowError(b.Planes(), inp2, rec2, 16))
  {
    hide Flushed, Kernel16, Load, Words.Small, Small, RowError, Sums, Zeros;
    FourLanes(sum, e);
    RegisterOfRow(b, inp, rec, 16);
    RegisterOfRow(b, inp2, rec2, 16);
    TwoRound(Load(b.input, inp, 16), Load(b.recon, rec, 16), Load(b.input, inp2, 16), Load(b.recon, rec2, 16), sum, e);
    var sum32 := Kernel16(Load(b.input, inp, 16), Load(b.recon, rec, 16), Zeros(8));
    sum32 := Kernel16(Load(b.input, inp2, 16), Load(b.recon, rec2, 16), sum32);
    sum64 := Flushed(sum32, sum);
  }

  method WideRow(b: Words, inp: nat, rec: nat, width: nat, sum: seq<u64>, ghost e: nat) returns (sum64: seq<u64>)
    requires b.Small() && width % 16 == 0 && inp + width <= |b.input| && rec + width <= |b.recon| && Sums(sum, e)
    ensures Sums(sum64, e + RowError(b.Planes(), inp, rec, width))
  {
    hide Words.Small, RowError, Sums;
    EmptyRow(b.Planes(), inp, rec);
    sum64 := sum;
    var w := 0;
    while w < width
      invariant w <= width && w % 16 == 0 && Sums(sum64, e + RowError(b.Planes(), inp, rec, w))
    {
      SplitRow(b.Planes(), inp, rec, w + 16, w);
      sum64 := One(b, inp + w, rec + w, sum64, e + RowError(b.Planes(), inp, rec, w));
      w := w + 16;
    }
  }

  /** The exact sum of squared differences, as far as 64 bits hold it. */
  method FullDistortion(b: Words, inputOffset: nat, reconOffset: nat, width: nat, height: nat) returns (distortion: u64)
    requires b.Small() && b.Planes().Has(inputOffset, reconOffset, width, height) && width % 4 == 0
    requires (width % 16 != 0 ==> height > 0) && (width % 16 == 8 || width / 16 == 1 ==> height % 2 == 0)
    ensures distortion == W64(BlockError(b.Planes(), inputOffset, reconOffset, width, height))
  {
    hide Words.Small, BlockError, Planes.Has, Sums, W64, Total, Together;
    ghost var p := b.Planes();
    var leftover := width % 16;
    var whole := width - leftover;
    var sum64 := [0, 0, 0, 0];
    SplitColumns(p, inputOffset, reconOffset, width, whole, height);
    NothingSummed();
    if leftover != 0 {
      sum64 := Leftover(b, inputOffset + whole, reconOffset + whole, leftover, height);
    }
    if whole != 0 {
      sum64 := Sixteens(b, inputOffset, reconOffset, whole, height, sum64,
                        BlockError(p, inputOffset + whole, reconOffset + whole, leftover, height));
    }
    LanesTogether(sum64, BlockError(p, inputOffset, reconOffset, width, height));
    distortion := Together(sum64);
  }

  // Blocks of up to 2^34 words, the largest of the codec among them, have the plain sum.
  lemma {:induction false} PlainSum(b: Words, inputOffset: nat, reconOffset: nat, width: nat, height: nat)
    requires b.Small() && b.Planes().Has(inputOffset, reconOffset, width, height) && width * height <= 0x4_0000_0000
    ensures var e := BlockError(b.Planes(), inputOffset, reconOffset, width, height); W64(e) == e
  {
    hide Sq, Planes.Has, BlockError;
    var p := b.Planes();
    var most := 0x7FFF * 0x7FFF;
    forall i, j | 0 <= i < |p.input| && 0 <= j < |p.recon|
      ensures Sq(p.input[i], p.recon[j]) <= most
    {
      SmallSquare(b.input[i], b.recon[j]);
    }
    BlockAtMost(p, inputOffset, reconOffset, width, height, most);
    assert most * width * height == most * (width * height);
    MulMonotone(width * height, 0x4_0000_0000, most);
    Quotient(BlockError(p, inputOffset, reconOffset, width, height), 0x1_0000_0000_0000_0000, 0,
             BlockError(p, inputOffset, reconOffset, width, height));
  }

  lemma {:induction false} SmallSquare(x: u16, y: u16)
    requires x < 0x8000 && y < 0x8000
    ensures Sq(x, y) <= 0x7FFF * 0x7FFF
  {
    var v := x - y;
    var a := if v < 0 then -v else v;
    assert a * a == v * v;
    MulMonotone(a, 0x7FFF, a);
    MulMonotone(a, 0x7FFF, 0x7FFF);
  }
}
