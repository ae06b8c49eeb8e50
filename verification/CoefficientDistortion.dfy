/** The distortion of transform coefficients: the residual is summed with 32-bit additions that drop carries. */
module CoefficientDistortion {
  import opened Arithmetic
  import opened Distortion
  import opened Lanes
  import opened MachineInts
  import opened Simd

  const M32 := 0x1_0000_0000
  const COEFFICIENT_MOST := 0x3FFF_FFFF

  // What the parameters of the kernel hold.
  ghost predicate Words32(x: seq<int>) { forall i :: 0 <= i < |x| ==> -0x8000_0000 <= x[i] < 0x8000_0000 }

  ghost predicate AreWords32(p: Planes) { Words32(p.input) && Words32(p.recon) }

  // Coefficients of at most 31 bits, whose differences fit a signed 32-bit lane.
  ghost predicate Coefficients(x: seq<int>) {
    forall i :: 0 <= i < |x| ==> -0x3FFF_FFFF <= x[i] <= 0x3FFF_FFFF
  }

  ghost predicate AreCoefficients(p: Planes) { Coefficients(p.input) && Coefficients(p.recon) }

  // ----- lanes -----

  function LowDword(v: nat): nat { v % M32 }

  function HighDword(v: nat): nat { v / M32 }

  // mul_epi32 of a lane with itself: the signed low half squared.
  function SquareLane(v: int): u64 { W64(S32(W32(v)) * S32(W32(v))) }

  // add_epi32 on a 64-bit lane: the halves separately.
  function AddHalves(x: u64, y: u64): u64 {
    Qword((LowDword(x) + LowDword(y)) % M32, (HighDword(x) + HighDword(y)) % M32)
  }

  function SquareLanes(v: seq<int>): (r: seq<u64>)
    ensures |r| == |v|
  {
    seq(|v|, i requires 0 <= i < |v| => SquareLane(v[i]))
  }

  function AddHalvesLanes(a: seq<u64>, b: seq<u64>): (r: seq<u64>)
    requires |a| == |b|
    ensures |r| == |a|
  {
    seq(|a|, i requires 0 <= i < |a| => AddHalves(a[i], b[i]))
  }

  function SubLanes(a: seq<int>, b: seq<int>): (r: seq<int>)
    requires |a| == |b|
    ensures |r| == |a|
  {
    seq(|a|, i requires 0 <= i < |a| => a[i] - b[i])
  }

  // The square of a difference, of which only the low half is multiplied.
  function WrappedSq(x: int, y: int): nat { Sq(S32(W32(x - y)), 0) }

  lemma {:induction false} SquareFits(v: int)
    requires -0x8000_0000 <= v < 0x8000_0000
    ensures 0 <= v * v <= 0x8000_0000 * 0x8000_0000
  {
    var a := if v < 0 then -v else v;
    assert a * a == v * v;
    MulMonotone(a, 0x8000_0000, a);
    MulMonotone(a, 0x8000_0000, 0x8000_0000);
  }

  lemma {:induction false} SquareLaneExact(x: int, y: int)
    ensures SquareLane(x - y) == WrappedSq(x, y)
  {
    var v := S32(W32(x - y));
    assert -0x8000_0000 <= v < 0x8000_0000;
    hide W32, S32;
    SquareFits(v);
    Quotient(v * v, 0x1_0000_0000_0000_0000, 0, v * v);
  }

  // The low half is the difference itself, or as far from zero, exactly when the difference is at most 2^31 from zero.
  lemma {:induction false} WrappedExactWhen(x: int, y: int)
    requires -0x8000_0000 <= x < 0x8000_0000 && -0x8000_0000 <= y < 0x8000_0000
    ensures WrappedSq(x, y) == Sq(x, y) <==> -0x8000_0000 <= x - y <= 0x8000_0000
  {
    var d, v := x - y, S32(W32(x - y));
    assert v == d || v == d - 0x1_0000_0000 || v == d + 0x1_0000_0000;
    hide W32, S32;
    assert (d - 0x1_0000_0000) * (d - 0x1_0000_0000) == d * d - 0x2_0000_0000 * d + 0x1_0000_0000_0000_0000;
    assert (d + 0x1_0000_0000) * (d + 0x1_0000_0000) == d * d + 0x2_0000_0000 * d + 0x1_0000_0000_0000_0000;
  }

  lemma {:induction false} SquareExact(x: int, y: int)
    requires -COEFFICIENT_MOST <= x <= COEFFICIENT_MOST && -COEFFICIENT_MOST <= y <= COEFFICIENT_MOST
    ensures WrappedSq(x, y) == Sq(x, y)
  {
    WrappedExactWhen(x, y);
  }

  // A lane holds a sum of low halves and a sum of high halves, each modulo 2^32.
  ghost predicate HoldsHalves(s: u64, low: nat, high: nat) { s == Qword(low % M32, high % M32) }

  lemma {:induction false} HalvesOfQword(low: u32, high: u32)
    ensures LowDword(Qword(low, high)) == low && HighDword(Qword(low, high)) == high
  {
  }

  lemma {:induction false} HalvesMore(s: u64, low: nat, high: nat, v: u64)
    requires HoldsHalves(s, low, high)
    ensures HoldsHalves(AddHalves(s, v), low + LowDword(v), high + HighDword(v))
  {
    HalvesOfQword(low % M32, high % M32);
    Reduced(low, M32);
    Reduced(high, M32);
    SumModulo(low % M32, low, LowDword(v), M32);
    SumModulo(high % M32, high, HighDword(v), M32);
    hide LowDword, HighDword, Qword;
  }

  // ----- the sums of halves -----

  // Of lane i, over the groups of four columns of a row and over the rows of a block.
  ghost function RowHalf(p: Planes, atIn: nat, atRe: nat, w: nat, i: nat, part: nat -> nat): nat
    requires (w > 0 ==> atIn + w <= |p.input| && atRe + w <= |p.recon|) && w % 4 == 0 && i < 4
    decreases w
  {
    if w == 0 then 0
    else
      RowHalf(p, atIn, atRe, w - 4, i, part)
      + part(WrappedSq(p.input[atIn + (w - 4) + i], p.recon[atRe + (w - 4) + i]))
  }

  ghost function BlockHalf(p: Planes, atIn: nat, atRe: nat, w: nat, n: nat, i: nat, part: nat -> nat): nat
    requires p.Has(atIn, atRe, w, n) && w % 4 == 0 && i < 4
    decreases n
  {
    if n == 0 then 0
    else
      HasFewer(p, atIn, atRe, w, n);
      BlockHalf(p, atIn, atRe, w, n - 1, i, part)
        + RowHalf(p, atIn + Offset(n - 1, p.inputStride), atRe + Offset(n - 1, p.reconStride), w, i, part)
  }

  // The carries out of the low halves: what the 32-bit additions lose.
  ghost function Carries(p: Planes, atIn: nat, atRe: nat, w: nat, n: nat): nat
    requires p.Has(atIn, atRe, w, n) && w % 4 == 0
  {
    HighDword(BlockHalf(p, atIn, atRe, w, n, 0, LowDword)) + HighDword(BlockHalf(p, atIn, atRe, w, n, 1, LowDword))
      + HighDword(BlockHalf(p, atIn, atRe, w, n, 2, LowDword)) + HighDword(BlockHalf(p, atIn, atRe, w, n, 3, LowDword))
  }

  lemma {:induction false} HalvesMakeWhole(v: nat)
    ensures LowDword(v) + M32 * HighDword(v) == v
  {
  }

  lemma {:induction false} RowHalfNext(p: Planes, atIn: nat, atRe: nat, w: nat, i: nat, part: nat -> nat)
    requires atIn + w + 4 <= |p.input| && atRe + w + 4 <= |p.recon| && w % 4 == 0 && i < 4
    ensures RowHalf(p, atIn, atRe, 0, i, part) == 0
    ensures RowHalf(p, atIn, atRe, w + 4, i, part) == RowHalf(p, atIn, atRe, w, i, part)
        + part(WrappedSq(p.input[atIn + w + i], p.recon[atRe + w + i]))
  {
    hide WrappedSq;
    assert atIn + (w + 4 - 4) + i == atIn + w + i && atRe + (w + 4 - 4) + i == atRe + w + i;
  }

  lemma {:induction false} BlockHalfNext(p: Planes, atIn: nat, atRe: nat, w: nat, n: nat, y: nat, i: nat,
                                         part: nat -> nat)
    requires p.Has(atIn, atRe, w, n) && w % 4 == 0 && y < n && i < 4
    ensures p.Has(atIn, atRe, w, y) && p.Has(atIn, atRe, w, y + 1)
    ensures
      var inp, rec := atIn + Offset(y, p.inputStride), atRe + Offset(y, p.reconStride);
      && inp + w <= |p.input| && rec + w <= |p.recon|
      && BlockHalf(p, atIn, atRe, w, y + 1, i, part) == BlockHalf(p, atIn, atRe, w, y, i, part)
           + RowHalf(p, inp, rec, w, i, part)
      && BlockHalf(p, atIn, atRe, w, 0, i, part) == 0
  {
    hide Offset, RowHalf;
    HasPrefix(p, atIn, atRe, w, n, y + 1);
    HasPrefix(p, atIn, atRe, w, n, y);
    HasPrefix(p, atIn, atRe, w, n, 0);
  }

  // The halves of the four lanes of a row, and of a block.
  ghost function RowSum(p: Planes, atIn: nat, atRe: nat, w: nat, part: nat -> nat): nat
    requires (w > 0 ==> atIn + w <= |p.input| && atRe + w <= |p.recon|) && w % 4 == 0
  {
    RowHalf(p, atIn, atRe, w, 0, part) + RowHalf(p, atIn, atRe, w, 1, part) + RowHalf(p, atIn, atRe, w, 2, part)
        + RowHalf(p, atIn, atRe, w, 3, part)
  }

  lemma {:induction false} RowSumNext(p: Planes, atIn: nat, atRe: nat, w: nat, part: nat -> nat)
    requires atIn + w + 4 <= |p.input| && atRe + w + 4 <= |p.recon| && w % 4 == 0
    ensures RowSum(p, atIn, atRe, 0, part) == 0
    ensures
      var a, b := atIn + w, atRe + w;
      RowSum(p, atIn, atRe, w + 4, part) == RowSum(p, atIn, atRe, w, part) + part(WrappedSq(p.input[a], p.recon[b]))
        + part(WrappedSq(p.input[a + 1], p.recon[b + 1])) + part(WrappedSq(p.input[a + 2], p.recon[b + 2]))
            + part(WrappedSq(p.input[a + 3], p.recon[b + 3]))
  {
    hide WrappedSq, RowHalf;
    RowHalfNext(p, atIn, atRe, w, 0, part);
    RowHalfNext(p, atIn, atRe, w, 1, part);
    RowHalfNext(p, atIn, atRe, w, 2, part);
    RowHalfNext(p, atIn, atRe, w, 3, part);
  }

  lemma {:induction false} RowSumNone(p: Planes, atIn: nat, atRe: nat, part: nat -> nat)
    ensures RowSum(p, atIn, atRe, 0, part) == 0
  {
  }

  function Whole(v: nat): nat { v }

  // The halves of a lane make up its squares.
  lemma {:induction false} RowHalves(p: Planes, atIn: nat, atRe: nat, w: nat, i: nat)
    requires (w > 0 ==> atIn + w <= |p.input| && atRe + w <= |p.recon|) && w % 4 == 0 && i < 4
    ensures RowHalf(p, atIn, atRe, w, i, Whole) == RowHalf(p, atIn, atRe, w, i, LowDword)
        + M32 * RowHalf(p, atIn, atRe, w, i, HighDword)
    decreases w
  {
    hide WrappedSq, LowDword, HighDword;
    if w > 0 {
      RowHalves(p, atIn, atRe, w - 4, i);
      HalvesMakeWhole(WrappedSq(p.input[atIn + (w - 4) + i], p.recon[atRe + (w - 4) + i]));
    }
  }

  lemma {:induction false} LaneHalves(p: Planes, atIn: nat, atRe: nat, w: nat, n: nat, i: nat)
    requires p.Has(atIn, atRe, w, n) && w % 4 == 0 && i < 4
    ensures BlockHalf(p, atIn, atRe, w, n, i, Whole) == BlockHalf(p, atIn, atRe, w, n, i, LowDword)
        + M32 * BlockHalf(p, atIn, atRe, w, n, i, HighDword)
    decreases n
  {
    hide Offset, RowHalf, LowDword, HighDword, Whole;
    if n > 0 {
      HasFewer(p, atIn, atRe, w, n);
      LaneHalves(p, atIn, atRe, w, n - 1, i);
      RowHalves(p, atIn + Offset(n - 1, p.inputStride), atRe + Offset(n - 1, p.reconStride), w, i);
    }
  }

  lemma {:induction false} WholeParts()
    ensures forall v: nat :: Whole(v) == v
  {
  }

  // The squares of all lanes are the error of a row.
  lemma {:induction false} RowIsError(p: Planes, atIn: nat, atRe: nat, w: nat)
    requires AreCoefficients(p) && atIn + w <= |p.input| && atRe + w <= |p.recon| && w % 4 == 0
    ensures RowSum(p, atIn, atRe, w, Whole) == RowError(p, atIn, atRe, w)
    decreases w
  {
    hide Sq, WrappedSq, RowError, RowSum, Whole;
    if w == 0 {
      EmptyRow(p, atIn, atRe);
      RowSumNone(p, atIn, atRe, Whole);
    } else {
      RowIsError(p, atIn, atRe, w - 4);
      SplitRow(p, atIn, atRe, w, w - 4);
      RowSumNext(p, atIn, atRe, w - 4, Whole);
      var a, b := atIn + (w - 4), atRe + (w - 4);
      FourSquares(p, a, b);
      SquareExact(p.input[a], p.recon[b]);
      SquareExact(p.input[a + 1], p.recon[b + 1]);
      SquareExact(p.input[a + 2], p.recon[b + 2]);
      SquareExact(p.input[a + 3], p.recon[b + 3]);
      WholeParts();
    }
  }

  lemma {:induction false} FourSquares(p: Planes, a: nat, b: nat)
    requires a + 4 <= |p.input| && b + 4 <= |p.recon|
    ensures RowError(p, a, b, 4)
         == Sq(p.input[a], p.recon[b]) + Sq(p.input[a + 1], p.recon[b + 1]) + Sq(p.input[a + 2], p.recon[b + 2])
             + Sq(p.input[a + 3], p.recon[b + 3])
  {
    hide Sq;
    var x, y := p.input[a..a + 4], p.recon[b..b + 4];
    assert Error(x, y) == Sq(x[0], y[0]) + Error(x[1..], y[1..]);
    assert Error(x[1..], y[1..]) == Sq(x[1], y[1]) + Error(x[1..][1..], y[1..][1..]);
    assert Error(x[1..][1..], y[1..][1..]) == Sq(x[2], y[2]) + Error(x[1..][1..][1..], y[1..][1..][1..]);
    assert Error(x[1..][1..][1..], y[1..][1..][1..]) == Sq(x[3], y[3]);
  }

  ghost function BlockSum(p: Planes, atIn: nat, atRe: nat, w: nat, n: nat, part: nat -> nat): nat
    requires p.Has(atIn, atRe, w, n) && w % 4 == 0
  {
    BlockHalf(p, atIn, atRe, w, n, 0, part) + BlockHalf(p, atIn, atRe, w, n, 1, part)
      + BlockHalf(p, atIn, atRe, w, n, 2, part) + BlockHalf(p, atIn, atRe, w, n, 3, part)
  }

  // The squares the lanes are to hold.
  ghost function Squares(p: Planes, atIn: nat, atRe: nat, w: nat, n: nat): nat
    requires p.Has(atIn, atRe, w, n) && w % 4 == 0
  {
    BlockSum(p, atIn, atRe, w, n, Whole)
  }

  lemma {:induction false} BlockSumNext(p: Planes, atIn: nat, atRe: nat, w: nat, n: nat, part: nat -> nat)
    requires p.Has(atIn, atRe, w, n + 1) && w % 4 == 0
    ensures p.Has(atIn, atRe, w, n) && p.Has(atIn, atRe, w, 0) && BlockSum(p, atIn, atRe, w, 0, part) == 0
    ensures
      var inp, rec := atIn + Offset(n, p.inputStride), atRe + Offset(n, p.reconStride);
      && inp + w <= |p.input| && rec + w <= |p.recon|
      && BlockSum(p, atIn, atRe, w, n + 1, part) == BlockSum(p, atIn, atRe, w, n, part) + RowSum(p, inp, rec, w, part)
  {
    hide Offset, RowHalf, BlockHalf;
    HasPrefix(p, atIn, atRe, w, n + 1, 0);
    BlockHalfNext(p, atIn, atRe, w, n + 1, n, 0, part);
    BlockHalfNext(p, atIn, atRe, w, n + 1, n, 1, part);
    BlockHalfNext(p, atIn, atRe, w, n + 1, n, 2, part);
    BlockHalfNext(p, atIn, atRe, w, n + 1, n, 3, part);
  }

  lemma {:induction false} BlockSumNone(p: Planes, atIn: nat, atRe: nat, w: nat, part: nat -> nat)
    requires p.Has(atIn, atRe, w, 0) && w % 4 == 0
    ensures BlockSum(p, atIn, atRe, w, 0, part) == 0
  {
  }

  // The low and the high halves of the four lanes make up the squares of the block, ...
  lemma {:induction false} BlockHalves(p: Planes, atIn: nat, atRe: nat, w: nat, n: nat)
    requires p.Has(atIn, atRe, w, n) && w % 4 == 0
    ensures Squares(p, atIn, atRe, w, n) == BlockSum(p, atIn, atRe, w, n, LowDword)
        + M32 * BlockSum(p, atIn, atRe, w, n, HighDword)
  {
    hide BlockHalf, LowDword, HighDword, Whole, Planes.Has;
    LaneHalves(p, atIn, atRe, w, n, 0);
    LaneHalves(p, atIn, atRe, w, n, 1);
    LaneHalves(p, atIn, atRe, w, n, 2);
    LaneHalves(p, atIn, atRe, w, n, 3);
  }

  // ... which are its error when no difference of coefficients leaves a signed 32-bit lane.
  lemma {:induction false} SquaresAreError(p: Planes, atIn: nat, atRe: nat, w: nat, n: nat)
    requires AreCoefficients(p) && p.Has(atIn, atRe, w, n) && w % 4 == 0
    ensures Squares(p, atIn, atRe, w, n) == BlockError(p, atIn, atRe, w, n)
    decreases n
  {
    hide Offset, RowError, RowSum, BlockSum, Planes.Has, AreCoefficients, Whole;
    if n == 0 {
      BlockSumNone(p, atIn, atRe, w, Whole);
    } else {
      HasFewer(p, atIn, atRe, w, n);
      SquaresAreError(p, atIn, atRe, w, n - 1);
      BlockSumNext(p, atIn, atRe, w, n - 1, Whole);
      RowIsError(p, atIn + Offset(n - 1, p.inputStride), atRe + Offset(n - 1, p.reconStride), w);
    }
  }

  // ----- the kernel -----

  ghost predicate LanesHold(s: seq<u64>, low: seq<nat>, high: seq<nat>) {
    |s| == |low| == |high| == 4 && forall i :: 0 <= i < 4 ==> HoldsHalves(s[i], low[i], high[i])
  }

  // What n whole rows and w columns of the next one, at inp and rec, add to the lanes.
  ghost function Parts(p: Planes, atIn: nat, atRe: nat, w: nat, n: nat, inp: nat, rec: nat, c: nat,
                       part: nat -> nat): (s: seq<nat>)
    requires p.Has(atIn, atRe, w, n) && w % 4 == 0 && (c > 0 ==> inp + c <= |p.input| && rec + c <= |p.recon|)
        && c % 4 == 0
    ensures |s| == 4
  {
    seq(4, i requires 0 <= i < 4 => BlockHalf(p, atIn, atRe, w, n, i, part) + RowHalf(p, inp, rec, c, i, part))
  }

  // The squares of four differences.
  function Residuals(p: Planes, inp: nat, rec: nat): (z: seq<u64>)
    requires inp + 4 <= |p.input| && rec + 4 <= |p.recon|
    ensures |z| == 4
  {
    SquareLanes(SubLanes(Load(p.input, inp, 4), Load(p.recon, rec, 4)))
  }

  lemma {:induction false} ResidualsAre(p: Planes, inp: nat, rec: nat, i: nat)
    requires inp + 4 <= |p.input| && rec + 4 <= |p.recon| && i < 4
    ensures Residuals(p, inp, rec)[i] == WrappedSq(p.input[inp + i], p.recon[rec + i])
  {
    hide SquareLane, WrappedSq;
    SquareLaneExact(p.input[inp + i], p.recon[rec + i]);
  }

  // Four columns more.
  lemma {:induction false} GroupStep(p: Planes, atIn: nat, atRe: nat, w: nat, n: nat, inp: nat, rec: nat, c: nat,
                                     s: seq<u64>)
    requires p.Has(atIn, atRe, w, n) && w % 4 == 0 && c % 4 == 0
    requires inp + c + 4 <= |p.input| && rec + c + 4 <= |p.recon|
    requires LanesHold(s, Parts(p, atIn, atRe, w, n, inp, rec, c, LowDword),
                       Parts(p, atIn, atRe, w, n, inp, rec, c, HighDword))
    ensures LanesHold(AddHalvesLanes(s, Residuals(p, inp + c, rec + c)),
                      Parts(p, atIn, atRe, w, n, inp, rec, c + 4, LowDword),
                          Parts(p, atIn, atRe, w, n, inp, rec, c + 4, HighDword))
  {
    hide AddHalves, HoldsHalves, Residuals, WrappedSq, BlockHalf, RowHalf, Planes.Has, LowDword, HighDword;
    var t := AddHalvesLanes(s, Residuals(p, inp + c, rec + c));
    var low, high := Parts(p, atIn, atRe, w, n, inp, rec, c + 4, LowDword),
        Parts(p, atIn, atRe, w, n, inp, rec, c + 4, HighDword);
    var low0, high0 := Parts(p, atIn, atRe, w, n, inp, rec, c, LowDword),
        Parts(p, atIn, atRe, w, n, inp, rec, c, HighDword);
    forall i | 0 <= i < 4
      ensures HoldsHalves(t[i], low[i], high[i])
    {
      ResidualsAre(p, inp + c, rec + c, i);
      HalvesMore(s[i], low0[i], high0[i], Residuals(p, inp + c, rec + c)[i]);
      RowHalfNext(p, inp, rec, c, i, LowDword);
      RowHalfNext(p, inp, rec, c, i, HighDword);
    }
  }

  // A row is done.
  lemma {:induction false} RowDone(p: Planes, atIn: nat, atRe: nat, w: nat, n: nat, y: nat, part: nat -> nat)
    requires p.Has(atIn, atRe, w, n) && w % 4 == 0 && y < n
    ensures p.Has(atIn, atRe, w, y) && p.Has(atIn, atRe, w, y + 1)
    ensures
      var inp, rec := atIn + Offset(y, p.inputStride), atRe + Offset(y, p.reconStride);
      && inp + w <= |p.input| && rec + w <= |p.recon|
      && Parts(p, atIn, atRe, w, y, inp, rec, w, part)
           == Parts(p, atIn, atRe, w, y + 1, inp + p.inputStride, rec + p.reconStride, 0, part)
  {
    hide Offset, BlockHalf;
    BlockHalfNext(p, atIn, atRe, w, n, y, 0, part);
    var inp, rec := atIn + Offset(y, p.inputStride), atRe + Offset(y, p.reconStride);
    var before, after := Parts(p, atIn, atRe, w, y, inp, rec, w, part),
                         Parts(p, atIn, atRe, w, y + 1, inp + p.inputStride, rec + p.reconStride, 0, part);
    forall i | 0 <= i < 4
      ensures before[i] == after[i]
    {
      BlockHalfNext(p, atIn, atRe, w, n, y, i, part);
    }
  }

  // ----- the prediction: the coefficients themselves squared -----

  ghost function Still(p: Planes): Planes { Planes(p.input, p.inputStride, seq(|p.input|, _ => 0), p.inputStride) }

  lemma {:induction false} SumsMore(s: seq<u64>, e: nat, z: seq<u64>)
    requires Sums(s, e) && |z| == 4
    ensures Sums(AddEpi64(s, z), e + Total(z))
  {
    TracksTotal(AddEpi64(s, z), Plus(s, z), 0x1_0000_0000_0000_0000);
    TotalPlus(s, z);
    SumModulo(Total(s), e, Total(z), 0x1_0000_0000_0000_0000);
  }

  lemma {:induction false} Energies(p: Planes, inp: nat)
    requires AreWords32(p) && inp + 4 <= |p.input|
    ensures Total(SquareLanes(Load(p.input, inp, 4))) == RowError(Still(p), inp, inp, 4)
  {
    hide SquareLane, Sq, WrappedSq, RowError, Total;
    var z := SquareLanes(Load(p.input, inp, 4));
    TotalOfFour(z);
    FourSquares(Still(p), inp, inp);
    forall i | 0 <= i < 4
      ensures z[i] == Sq(p.input[inp + i], 0)
    {
      SquareLaneExact(p.input[inp + i], 0);
      WrappedExactWhen(p.input[inp + i], 0);
    }
  }

  // ----- what the carries cost -----

  lemma {:induction false} Multiple(a: int, k: int)
    ensures W64(a + k * 0x1_0000_0000_0000_0000) == W64(a)
  {
    var m := 0x1_0000_0000_0000_0000;
    assert a == a / m * m + a % m;
    Quotient(a + k * m, m, a / m + k, a % m);
  }

  // The sum of the lanes falls short of the exact sum by the carries lost, modulo 2^64.
  lemma {:induction false} Shortfall(s: seq<u64>, low: seq<nat>, high: seq<nat>, e: nat, carries: nat)
    requires LanesHold(s, low, high) && e == Total(low) + M32 * Total(high)
    requires carries == HighDword(low[0]) + HighDword(low[1]) + HighDword(low[2]) + HighDword(low[3])
    ensures Together(s) == W64(e - M32 * carries)
  {
    hide HoldsHalves, W64, HighDword, Total, Together;
    var k := HighDword(high[0]) + HighDword(high[1]) + HighDword(high[2]) + HighDword(high[3]);
    LaneShortfall(s[0], low[0], high[0]);
    LaneShortfall(s[1], low[1], high[1]);
    LaneShortfall(s[2], low[2], high[2]);
    LaneShortfall(s[3], low[3], high[3]);
    TotalOfFour(s);
    TotalOfFour(low);
    TotalOfFour(high);
    assert e - M32 * carries == Total(s) + k * 0x1_0000_0000_0000_0000;
    Multiple(Total(s), k);
    LanesTogether(s, Total(s));
  }

  lemma {:induction false} LaneShortfall(s: u64, low: nat, high: nat)
    requires HoldsHalves(s, low, high)
    ensures low + M32 * high - M32 * HighDword(low) == s + 0x1_0000_0000_0000_0000 * HighDword(high)
  {
    HalvesMakeWhole(low);
    HalvesMakeWhole(high);
  }

  /** The prediction energy is exact; the residual lacks 2^32 times the carries out of the low halves. */
  method CoefficientDistortion(p: Planes, inputOffset: nat, reconOffset: nat, width: nat, height: nat)
    returns (residual: u64, prediction: u64)
    requires AreWords32(p) && p.Has(inputOffset, reconOffset, width, height) && width > 0 && width % 4 == 0
        && height > 0
    ensures residual == W64(Squares(p, inputOffset, reconOffset, width, height) - M32 * Carries(p, inputOffset,
        reconOffset, width, height))
    ensures AreCoefficients(p) ==>
      residual == W64(BlockError(p, inputOffset, reconOffset, width, height) - M32 * Carries(p, inputOffset,
          reconOffset, width, height))
    ensures Still(p).Has(inputOffset, inputOffset, width, height)
    ensures prediction == W64(BlockError(Still(p), inputOffset, inputOffset, width, height))
  {
    hide AreWords32, AreCoefficients, Planes.Has, BlockError, Squares, RowError, LanesHold, Sums, Residuals, Parts,
        Offset, Load, Total, Together, W64;
    NoRows(p, inputOffset, reconOffset, width);
    NoRows(Still(p), inputOffset, inputOffset, width);
    StillHas(p, inputOffset, reconOffset, width, height);
    NothingHeld(p, inputOffset, reconOffset, width);
    NothingSummed();
    var sum1, sum2 := [0, 0, 0, 0], [0, 0, 0, 0];
    var coeff, recon := inputOffset, reconOffset;
    for y := 0 to height
      invariant coeff == inputOffset + Offset(y, p.inputStride) && recon == reconOffset + Offset(y, p.reconStride)
      invariant p.Has(inputOffset, reconOffset, width, y) && Still(p).Has(inputOffset, inputOffset, width, y)
      invariant LanesHold(sum1, Parts(p, inputOffset, reconOffset, width, y, coeff, recon, 0, LowDword),
                          Parts(p, inputOffset, reconOffset, width, y, coeff, recon, 0, HighDword))
      invariant Sums(sum2, BlockError(Still(p), inputOffset, inputOffset, width, y))
    {
      NextRow(p, inputOffset, reconOffset, width, height, y);
      NextRow(Still(p), inputOffset, inputOffset, width, height, y);
      sum1, sum2 := Row(p, inputOffset, reconOffset, width, y, coeff, recon, sum1, sum2,
                        BlockError(Still(p), inputOffset, inputOffset, width, y));
      RowDone(p, inputOffset, reconOffset, width, height, y, LowDword);
      RowDone(p, inputOffset, reconOffset, width, height, y, HighDword);
      coeff, recon := coeff + p.inputStride, recon + p.reconStride;
    }
    AllHeld(p, inputOffset, reconOffset, width, height, coeff, recon, sum1);
    LanesTogether(sum2, BlockError(Still(p), inputOffset, inputOffset, width, height));
    if AreCoefficients(p) {
      SquaresAreError(p, inputOffset, reconOffset, width, height);
    }
    residual, prediction := Together(sum1), Together(sum2);
  }

  // The columns of one row, four at a time.
  method Row(p: Planes, ghost atIn: nat, ghost atRe: nat, width: nat, ghost n: nat, coeff: nat, recon: nat,
             sum1: seq<u64>, sum2: seq<u64>, ghost e: nat)
    returns (s1: seq<u64>, s2: seq<u64>)
    requires AreWords32(p) && p.Has(atIn, atRe, width, n) && width % 4 == 0
    requires coeff + width <= |p.input| && recon + width <= |p.recon| && Sums(sum2, e)
    requires LanesHold(sum1, Parts(p, atIn, atRe, width, n, coeff, recon, 0, LowDword),
                       Parts(p, atIn, atRe, width, n, coeff, recon, 0, HighDword))
    ensures LanesHold(s1, Parts(p, atIn, atRe, width, n, coeff, recon, width, LowDword),
                      Parts(p, atIn, atRe, width, n, coeff, recon, width, HighDword))
    ensures Sums(s2, e + RowError(Still(p), coeff, coeff, width))
  {
    hide AreWords32, Planes.Has, RowError, LanesHold, Sums, Residuals, Parts, Load, Total, SquareLanes, AddEpi64,
        AddHalvesLanes;
    EmptyRow(Still(p), coeff, coeff);
    s1, s2 := sum1, sum2;
    var c := 0;
    while c < width
      invariant c <= width && c % 4 == 0
      invariant LanesHold(s1, Parts(p, atIn, atRe, width, n, coeff, recon, c, LowDword),
                          Parts(p, atIn, atRe, width, n, coeff, recon, c, HighDword))
      invariant Sums(s2, e + RowError(Still(p), coeff, coeff, c))
    {
      LanesSizes(s1, Parts(p, atIn, atRe, width, n, coeff, recon, c, LowDword),
                 Parts(p, atIn, atRe, width, n, coeff, recon, c, HighDword));
      FourLanes(s2, e + RowError(Still(p), coeff, coeff, c));
      GroupStep(p, atIn, atRe, width, n, coeff, recon, c, s1);
      Energies(p, coeff + c);
      SplitRow(Still(p), coeff, coeff, c + 4, c);
      var z := SquareLanes(Load(p.input, coeff + c, 4));
      SumsMore(s2, e + RowError(Still(p), coeff, coeff, c), z);
      s1 := AddHalvesLanes(s1, Residuals(p, coeff + c, recon + c));
      s2 := AddEpi64(s2, z);
      c := c + 4;
    }
  }

  lemma {:induction false} LanesSizes(s: seq<u64>, low: seq<nat>, high: seq<nat>)
    requires LanesHold(s, low, high)
    ensures |s| == 4
  {
  }

  lemma {:induction false} StillHas(p: Planes, atIn: nat, atRe: nat, w: nat, n: nat)
    requires p.Has(atIn, atRe, w, n)
    ensures Still(p).Has(atIn, atIn, w, n)
  {
  }

  lemma {:induction false} NothingHeld(p: Planes, atIn: nat, atRe: nat, w: nat)
    requires p.Has(atIn, atRe, w, 0) && w % 4 == 0
    ensures LanesHold([0, 0, 0, 0], Parts(p, atIn, atRe, w, 0, atIn, atRe, 0, LowDword),
                      Parts(p, atIn, atRe, w, 0, atIn, atRe, 0, HighDword))
  {
  }

  lemma {:induction false} PartsTotal(p: Planes, atIn: nat, atRe: nat, w: nat, n: nat, inp: nat, rec: nat,
                                      part: nat -> nat)
    requires p.Has(atIn, atRe, w, n) && w % 4 == 0
    ensures Total(Parts(p, atIn, atRe, w, n, inp, rec, 0, part)) == BlockSum(p, atIn, atRe, w, n, part)
  {
    hide BlockHalf, Planes.Has, Total;
    TotalOfFour(Parts(p, atIn, atRe, w, n, inp, rec, 0, part));
  }

  lemma {:induction false} AllHeld(p: Planes, atIn: nat, atRe: nat, w: nat, n: nat, inp: nat, rec: nat, s: seq<u64>)
    requires p.Has(atIn, atRe, w, n) && w % 4 == 0
    requires LanesHold(s, Parts(p, atIn, atRe, w, n, inp, rec, 0, LowDword),
                       Parts(p, atIn, atRe, w, n, inp, rec, 0, HighDword))
    ensures |s| == 4 && Together(s) == W64(Squares(p, atIn, atRe, w, n) - M32 * Carries(p, atIn, atRe, w, n))
  {
    hide Squares, BlockHalf, BlockSum, HoldsHalves, Together, W64, Planes.Has, LowDword, HighDword, Total;
    var low, high := Parts(p, atIn, atRe, w, n, inp, rec, 0, LowDword),
        Parts(p, atIn, atRe, w, n, inp, rec, 0, HighDword);
    BlockHalves(p, atIn, atRe, w, n);
    PartsTotal(p, atIn, atRe, w, n, inp, rec, LowDword);
    PartsTotal(p, atIn, atRe, w, n, inp, rec, HighDword);
    Shortfall(s, low, high, Squares(p, atIn, atRe, w, n), Carries(p, atIn, atRe, w, n));
  }

  // The residual is exact exactly when the carries lost are a multiple of 2^32, ...
  lemma {:induction false} ResidualExact(e: nat, carries: nat)
    ensures W64(e - M32 * carries) == W64(e) <==> carries % M32 == 0
  {
    var m := 0x1_0000_0000_0000_0000;
    var q, r := carries / M32, carries % M32;
    assert carries == q * M32 + r;
    assert M32 * carries == q * m + M32 * r;
    Multiple(e - M32 * r, -q);
    assert W64(e - M32 * carries) == W64(e - M32 * r);
    if r > 0 {
      NotSame(e, M32 * r);
    }
  }

  lemma {:induction false} NotSame(e: nat, d: nat)
    requires 0 < d < 0x1_0000_0000_0000_0000
    ensures W64(e - d) != W64(e)
  {
    var m := 0x1_0000_0000_0000_0000;
    var q, r := e / m, e % m;
    if d <= r {
      Quotient(e - d, m, q, r - d);
    } else {
      Quotient(e - d, m, q - 1, r - d + m);
    }
  }

  // ... and since every addition loses at most one, exactly when no lane's low halves reach 2^32.
  lemma {:induction false} ResidualExactWhen(p: Planes, atIn: nat, atRe: nat, w: nat, n: nat)
    requires p.Has(atIn, atRe, w, n) && w % 4 == 0 && w * n < M32
    ensures
      var e, carries := BlockError(p, atIn, atRe, w, n), Carries(p, atIn, atRe, w, n);
      W64(e - M32 * carries) == W64(e)
      <==> forall i :: 0 <= i < 4 ==> BlockHalf(p, atIn, atRe, w, n, i, LowDword) < M32
    ensures
      var e, carries := Squares(p, atIn, atRe, w, n), Carries(p, atIn, atRe, w, n);
      W64(e - M32 * carries) == W64(e)
      <==> forall i :: 0 <= i < 4 ==> BlockHalf(p, atIn, atRe, w, n, i, LowDword) < M32
  {
    hide BlockHalf, BlockError, Squares, W64, LowDword, Planes.Has;
    ResidualExact(BlockError(p, atIn, atRe, w, n), Carries(p, atIn, atRe, w, n));
    ResidualExact(Squares(p, atIn, atRe, w, n), Carries(p, atIn, atRe, w, n));
    LaneCarries(p, atIn, atRe, w, n, 0);
    LaneCarries(p, atIn, atRe, w, n, 1);
    LaneCarries(p, atIn, atRe, w, n, 2);
    LaneCarries(p, atIn, atRe, w, n, 3);
    var carries := Carries(p, atIn, atRe, w, n);
    assert carries <= 4 * (w / 4 * n) == w * n by { QuarterTimes(w, n); }
    Quotient(carries, M32, 0, carries);
  }

  lemma {:induction false} QuarterTimes(w: nat, n: nat)
    requires w % 4 == 0
    ensures 4 * (w / 4 * n) == w * n
  {
    assert w == 4 * (w / 4);
  }

  lemma {:induction false} LaneCarries(p: Planes, atIn: nat, atRe: nat, w: nat, n: nat, i: nat)
    requires p.Has(atIn, atRe, w, n) && w % 4 == 0 && i < 4
    ensures
      var low := BlockHalf(p, atIn, atRe, w, n, i, LowDword);
      HighDword(low) <= w / 4 * n && (HighDword(low) == 0 <==> low < M32)
  {
    hide BlockHalf, LowDword;
    LowAtMost(p, atIn, atRe, w, n, i);
    var low, k := BlockHalf(p, atIn, atRe, w, n, i, LowDword), w / 4 * n;
    assert low <= M32 * k;
  }

  lemma {:induction false} LowAtMost(p: Planes, atIn: nat, atRe: nat, w: nat, n: nat, i: nat)
    requires p.Has(atIn, atRe, w, n) && w % 4 == 0 && i < 4
    ensures BlockHalf(p, atIn, atRe, w, n, i, LowDword) <= M32 * (w / 4 * n)
    decreases n
  {
    hide Offset, RowHalf, LowDword;
    if n > 0 {
      HasFewer(p, atIn, atRe, w, n);
      LowAtMost(p, atIn, atRe, w, n - 1, i);
      RowLowAtMost(p, atIn + Offset(n - 1, p.inputStride), atRe + Offset(n - 1, p.reconStride), w, i);
      assert w / 4 * n == w / 4 * (n - 1) + w / 4;
    }
  }

  lemma {:induction false} RowLowAtMost(p: Planes, atIn: nat, atRe: nat, w: nat, i: nat)
    requires atIn + w <= |p.input| && atRe + w <= |p.recon| && w % 4 == 0 && i < 4
    ensures RowHalf(p, atIn, atRe, w, i, LowDword) <= M32 * (w / 4)
    decreases w
  {
    hide WrappedSq;
    if w > 0 {
      RowLowAtMost(p, atIn, atRe, w - 4, i);
    }
  }

  // A caller who finds an error below 2^32 has the exact one.
  lemma {:induction false} SmallErrorExact(p: Planes, atIn: nat, atRe: nat, w: nat, n: nat)
    requires AreCoefficients(p) && p.Has(atIn, atRe, w, n) && w % 4 == 0 && BlockError(p, atIn, atRe, w, n) < M32
    ensures Carries(p, atIn, atRe, w, n) == 0
    ensures W64(BlockError(p, atIn, atRe, w, n) - M32 * Carries(p, atIn, atRe, w, n)) == BlockError(p, atIn, atRe, w, n)
  {
    hide BlockHalf, BlockError, Squares, LowDword, HighDword, Planes.Has, AreCoefficients, W64;
    SquaresAreError(p, atIn, atRe, w, n);
    BlockHalves(p, atIn, atRe, w, n);
    forall i | 0 <= i < 4
      ensures HighDword(BlockHalf(p, atIn, atRe, w, n, i, LowDword)) == 0
    {
      NoHighHalf(BlockHalf(p, atIn, atRe, w, n, i, LowDword));
    }
    Stored64(BlockError(p, atIn, atRe, w, n));
  }

  lemma {:induction false} NoHighHalf(v: nat)
    requires v < M32
    ensures HighDword(v) == 0
  {
  }

  // Two differences of 65535 in the first column of a 4x4 block are enough to lose a carry.
  lemma {:induction false} CarryLost()
    ensures
      var p := Planes([0xFFFF, 0, 0, 0, 0xFFFF, 0, 0, 0, 0, 0, 0, 0, 0, 0, 0, 0], 4, seq(16, _ => 0), 4);
      && p.Has(0, 0, 4, 4) && AreCoefficients(p)
      && W64(BlockError(p, 0, 0, 4, 4) - M32 * Carries(p, 0, 0, 4, 4)) != W64(BlockError(p, 0, 0, 4, 4))
  {
    hide BlockHalf, BlockError, Squares, W64, Carries, LowDword;
    var p := Planes([0xFFFF, 0, 0, 0, 0xFFFF, 0, 0, 0, 0, 0, 0, 0, 0, 0, 0, 0], 4, seq(16, _ => 0), 4);
    LostLane(p);
    ResidualExactWhen(p, 0, 0, 4, 4);
  }

  lemma {:induction false} LostLane(p: Planes)
    requires p.inputStride == p.reconStride == 4 && |p.input| == |p.recon| == 16
    requires p.input[0] == p.input[4] == 0xFFFF && p.recon[0] == p.recon[4] == 0
    ensures p.Has(0, 0, 4, 4) && BlockHalf(p, 0, 0, 4, 4, 0, LowDword) >= M32
  {
    hide RowHalf, BlockHalf, Sq, WrappedSq, LowDword, Offset;
    OffsetNext(0, 4);
    OffsetNext(1, 4);
    OffsetNext(2, 4);
    BlockHalfNext(p, 0, 0, 4, 4, 0, 0, LowDword);
    BlockHalfNext(p, 0, 0, 4, 4, 1, 0, LowDword);
    BlockHalfNext(p, 0, 0, 4, 4, 2, 0, LowDword);
    BlockHalfNext(p, 0, 0, 4, 4, 3, 0, LowDword);
    RowHalfNext(p, 0, 0, 0, 0, LowDword);
    RowHalfNext(p, 4, 4, 0, 0, LowDword);
    LostSquare();
    WrappedExactWhen(0xFFFF, 0);
  }

  lemma {:induction false} LostSquare()
    ensures LowDword(Sq(0xFFFF, 0)) == 0xFFFE_0001
  {
  }
}
