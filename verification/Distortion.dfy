/** Sums of squared differences of blocks, exact despite 32-bit lanes. */
module Distortion {
  import opened Arithmetic
  import opened Lanes
  import opened MachineInts
  import opened Simd

  // ----- the exact sums -----

  function Sq(x: int, y: int): (d: nat) {
    SquareNonNegative(x - y);
    (x - y) * (x - y)
  }

  lemma {:induction false} SquareNonNegative(v: int)
    ensures v * v >= 0
  {
    if v >= 0 { MulMonotone(0, v, v); } else { MulMonotone(0, -v, -v); assert -v * -v == v * v; }
  }

  ghost function Error(x: seq<int>, y: seq<int>): nat
    requires |x| == |y|
  {
    if x == [] then 0 else Sq(x[0], y[0]) + Error(x[1..], y[1..])
  }

  lemma {:induction false} ErrorConcat(x: seq<int>, y: seq<int>, x2: seq<int>, y2: seq<int>)
    requires |x| == |y| && |x2| == |y2|
    ensures Error(x + x2, y + y2) == Error(x, y) + Error(x2, y2)
    decreases |x|
  {
    hide Sq;
    if x == [] {
      assert x + x2 == x2 && y + y2 == y2;
    } else {
      assert (x + x2)[1..] == x[1..] + x2 && (y + y2)[1..] == y[1..] + y2;
      ErrorConcat(x[1..], y[1..], x2, y2);
    }
  }

  // What a multiply-add of differences with themselves leaves: pairs of squares.
  ghost function PairErrors(x: seq<int>, y: seq<int>): (lanes: seq<nat>)
    requires |x| == |y| && |x| % 2 == 0
    ensures |lanes| == |x| / 2
  {
    seq(|x| / 2, i requires 0 <= i < |x| / 2 => Sq(x[2 * i], y[2 * i]) + Sq(x[2 * i + 1], y[2 * i + 1]))
  }

  lemma {:induction false} PairsTotal(x: seq<int>, y: seq<int>)
    requires |x| == |y| && |x| % 2 == 0
    ensures Total(PairErrors(x, y)) == Error(x, y)
    decreases |x|
  {
    hide Sq;
    if x != [] {
      PairsTotal(x[2..], y[2..]);
      assert PairErrors(x, y)[1..] == PairErrors(x[2..], y[2..]);
      assert x[1..][1..] == x[2..] && y[1..][1..] == y[2..];
    }
  }

  // The error of n rows of a width, from given places on.
  datatype Planes = Planes(input: seq<int>, inputStride: nat, recon: seq<int>, reconStride: nat) {
    ghost predicate Has(atIn: nat, atRe: nat, w: nat, n: nat) {
      n > 0 ==> atIn + Offset(n - 1, inputStride) + w <= |input| && atRe + Offset(n - 1, reconStride) + w <= |recon|
    }
  }

  ghost function RowError(p: Planes, atIn: nat, atRe: nat, w: nat): nat
    requires atIn + w <= |p.input| && atRe + w <= |p.recon|
  {
    Error(p.input[atIn..atIn + w], p.recon[atRe..atRe + w])
  }

  ghost function BlockError(p: Planes, atIn: nat, atRe: nat, w: nat, n: nat): nat
    requires p.Has(atIn, atRe, w, n)
    decreases n
  {
    if n == 0 then 0
    else
      HasFewer(p, atIn, atRe, w, n);
      BlockError(p, atIn, atRe, w, n - 1) + RowError(p, atIn + Offset(n - 1, p.inputStride),
                                                     atRe + Offset(n - 1, p.reconStride), w)
  }

  lemma {:induction false} HasFewer(p: Planes, atIn: nat, atRe: nat, w: nat, n: nat)
    requires n > 0 && p.Has(atIn, atRe, w, n)
    ensures p.Has(atIn, atRe, w, n - 1)
  {
    if n > 1 {
      OffsetNext(n - 2, p.inputStride);
      OffsetNext(n - 2, p.reconStride);
    }
  }

  // Columns split: the error of a block is that of its left and of its right part.
  lemma {:induction false} SplitColumns(p: Planes, atIn: nat, atRe: nat, w: nat, v: nat, n: nat)
    requires p.Has(atIn, atRe, w, n) && v <= w
    ensures p.Has(atIn, atRe, v, n) && p.Has(atIn + v, atRe + v, w - v, n)
    ensures BlockError(p, atIn, atRe, w, n) == BlockError(p, atIn, atRe, v, n)
        + BlockError(p, atIn + v, atRe + v, w - v, n)
    decreases n
  {
    hide Offset, RowError;
    if n > 0 {
      HasFewer(p, atIn, atRe, w, n);
      SplitColumns(p, atIn, atRe, w, v, n - 1);
      SplitRow(p, atIn + Offset(n - 1, p.inputStride), atRe + Offset(n - 1, p.reconStride), w, v);
      assert atIn + v + Offset(n - 1, p.inputStride) == atIn + Offset(n - 1, p.inputStride) + v;
      assert atRe + v + Offset(n - 1, p.reconStride) == atRe + Offset(n - 1, p.reconStride) + v;
    }
  }

  lemma {:induction false} SplitRow(p: Planes, atIn: nat, atRe: nat, w: nat, v: nat)
    requires atIn + w <= |p.input| && atRe + w <= |p.recon| && v <= w
    ensures RowError(p, atIn, atRe, w) == RowError(p, atIn, atRe, v) + RowError(p, atIn + v, atRe + v, w - v)
  {
    hide Error;
    var x, y := p.input[atIn..atIn + w], p.recon[atRe..atRe + w];
    assert x[..v] == p.input[atIn..atIn + v] && y[..v] == p.recon[atRe..atRe + v];
    assert x[v..] == p.input[atIn + v..atIn + v + (w - v)] && y[v..] == p.recon[atRe + v..atRe + v + (w - v)];
    assert x[..v] + x[v..] == x && y[..v] + y[v..] == y;
    ErrorConcat(x[..v], y[..v], x[v..], y[v..]);
  }

  // ----- multiply-add of differences -----

  // A lane holds the difference of two pixels, in one direction or the other.
  predicate IsDifference(d: u16, x: int, y: int) {
    -0x8000 < x - y < 0x8000 && (S16(d) == x - y || S16(d) == y - x)
  }

  ghost predicate AreDifferences(d: seq<u16>, x: seq<int>, y: seq<int>) {
    |d| == |x| == |y| && forall i :: 0 <= i < |d| ==> IsDifference(d[i], x[i], y[i])
  }

  const LANE_MOST := 2 * 0x7FFF * 0x7FFF

  lemma {:induction false} SquareAtMost(d: u16, x: int, y: int)
    requires IsDifference(d, x, y)
    ensures S16(d) * S16(d) == Sq(x, y) <= 0x7FFF * 0x7FFF
  {
    var v := S16(d);
    var a := if v < 0 then -v else v;
    assert a * a == v * v;
    MulMonotone(a, 0x7FFF, a);
    MulMonotone(a, 0x7FFF, 0x7FFF);
    assert (y - x) * (y - x) == (x - y) * (x - y);
  }

  lemma {:induction false} SquaresLane(d0: u16, x0: int, y0: int, d1: u16, x1: int, y1: int)
    requires IsDifference(d0, x0, y0) && IsDifference(d1, x1, y1)
    ensures MaddLane(d0, d0, d1, d1) == Sq(x0, y0) + Sq(x1, y1) <= LANE_MOST
  {
    hide IsDifference, S16, Sq;
    SquareAtMost(d0, x0, y0);
    SquareAtMost(d1, x1, y1);
  }

  // The multiply-add of differences with themselves is exact.
  lemma {:induction false} SquaresExact(d: seq<u16>, x: seq<int>, y: seq<int>)
    requires AreDifferences(d, x, y) && |d| % 2 == 0
    ensures MaddEpi16(d, d) == PairErrors(x, y) && AtMost(PairErrors(x, y), LANE_MOST)
  {
    hide IsDifference, MaddLane, Sq;
    var m, e := MaddEpi16(d, d), PairErrors(x, y);
    forall i | 0 <= i < |e|
      ensures m[i] == e[i] <= LANE_MOST
    {
      SquaresLane(d[2 * i], x[2 * i], y[2 * i], d[2 * i + 1], x[2 * i + 1], y[2 * i + 1]);
    }
  }

  // max, min, sub: the absolute differences of words below 0x8000.
  function AbsWords(x: seq<u16>, y: seq<u16>): (d: seq<u16>)
    requires |x| == |y|
    ensures |d| == |x|
  {
    SubEpi16(MaxEpu16(x, y), MinEpu16(x, y))
  }

  ghost predicate Small(x: seq<int>) { forall i :: 0 <= i < |x| ==> 0 <= x[i] < 0x8000 }

  lemma {:induction false} AbsLane(x: u16, y: u16)
    requires x < 0x8000 && y < 0x8000
    ensures IsDifference(SubLane(if x < y then y else x, if x < y then x else y), x, y)
  {
  }

  lemma {:induction false} AbsWordsAre(x: seq<u16>, y: seq<u16>)
    requires |x| == |y| && Small(x) && Small(y)
    ensures AreDifferences(AbsWords(x, y), x, y)
  {
    hide IsDifference, SubLane;
    forall i | 0 <= i < |x|
      ensures IsDifference(AbsWords(x, y)[i], x[i], y[i])
    {
      AbsLane(x[i], y[i]);
    }
  }

  // ----- rows -----

  lemma {:induction false} HasPrefix(p: Planes, atIn: nat, atRe: nat, w: nat, n: nat, m: nat)
    requires p.Has(atIn, atRe, w, n) && m <= n
    ensures p.Has(atIn, atRe, w, m)
    decreases n
  {
    hide Planes.Has;
    if m < n {
      HasFewer(p, atIn, atRe, w, n);
      HasPrefix(p, atIn, atRe, w, n - 1, m);
    }
  }

  // One row more, and where it and the row after it start.
  lemma {:induction false} NextRow(p: Planes, atIn: nat, atRe: nat, w: nat, n: nat, y: nat)
    requires p.Has(atIn, atRe, w, n) && y < n
    ensures p.Has(atIn, atRe, w, y) && p.Has(atIn, atRe, w, y + 1)
    ensures
      var inp, rec := atIn + Offset(y, p.inputStride), atRe + Offset(y, p.reconStride);
      && inp + w <= |p.input| && rec + w <= |p.recon|
      && atIn + Offset(y + 1, p.inputStride) == inp + p.inputStride
           && atRe + Offset(y + 1, p.reconStride) == rec + p.reconStride
      && BlockError(p, atIn, atRe, w, y + 1) == BlockError(p, atIn, atRe, w, y) + RowError(p, inp, rec, w)
  {
    hide Offset, RowError;
    HasPrefix(p, atIn, atRe, w, n, y + 1);
    HasPrefix(p, atIn, atRe, w, n, y);
    OffsetNext(y, p.inputStride);
    OffsetNext(y, p.reconStride);
  }

  lemma {:induction false} EmptyRow(p: Planes, atIn: nat, atRe: nat)
    requires atIn <= |p.input| && atRe <= |p.recon|
    ensures RowError(p, atIn, atRe, 0) == 0
  {
  }

  lemma {:induction false} NoRows(p: Planes, atIn: nat, atRe: nat, w: nat)
    ensures p.Has(atIn, atRe, w, 0) && BlockError(p, atIn, atRe, w, 0) == 0
        && Offset(0, p.inputStride) == Offset(0, p.reconStride) == 0
  {
    OffsetNext(0, p.inputStride);
    OffsetNext(0, p.reconStride);
  }

  lemma {:induction false} ZeroError(n: nat)
    ensures Error(Set1(0, n), Set1(0, n)) == 0
    decreases n
  {
    if n > 0 {
      var x: seq<int> := Set1(0, n);
      var z: seq<int> := Set1(0, n - 1);
      assert x[1..] == z;
      ZeroError(n - 1);
      assert Sq(0, 0) == 0;
    }
  }

  // ----- sum32_to64 -----

  function Flushed(sum32: seq<u32>, sum64: seq<u64>): (s: seq<u64>)
    requires |sum32| == 8 && |sum64| == 4
    ensures |s| == 4
  {
    AddEpi64(AddEpi64(sum64, AsQwords(UnpackLo256<u32>(sum32, Zeros(8)))), AsQwords(UnpackHi256<u32>(sum32, Zeros(8))))
  }

  lemma {:induction false} HalfWithZero(a: seq<u32>)
    requires |a| == 4
    ensures AsQwords(UnpackLo<u32>(a, Zeros(4))) == [a[0], a[1]] && AsQwords(UnpackHi<u32>(a, Zeros(4))) == [a[2], a[3]]
  {
    var lo, hi := UnpackLo<u32>(a, Zeros(4)), UnpackHi<u32>(a, Zeros(4));
    assert lo[0] == a[0] && lo[1] == 0 && lo[2] == a[1] && lo[3] == 0;
    assert hi[0] == a[2] && hi[1] == 0 && hi[2] == a[3] && hi[3] == 0;
  }

  lemma {:induction false} QwordsConcat(a: seq<u32>, b: seq<u32>)
    requires |a| % 2 == 0 && |b| % 2 == 0
    ensures AsQwords(a + b) == AsQwords(a) + AsQwords(b)
  {
    hide Qword;
  }

  // Unpacking with zeros widens lanes.
  lemma {:induction false} UnpackedWithZero(a: seq<u32>)
    requires |a| == 8
    ensures AsQwords(UnpackLo256<u32>(a, Zeros(8))) == [a[0], a[1]] + [a[4], a[5]]
    ensures AsQwords(UnpackHi256<u32>(a, Zeros(8))) == [a[2], a[3]] + [a[6], a[7]]
  {
    hide UnpackLo, UnpackHi, AsQwords;
    assert Zeros(8)[..4] == Zeros(4) && Zeros(8)[4..] == Zeros(4);
    HalfWithZero(a[..4]);
    HalfWithZero(a[4..]);
    QwordsConcat(UnpackLo<u32>(a[..4], Zeros(4)), UnpackLo<u32>(a[4..], Zeros(4)));
    QwordsConcat(UnpackHi<u32>(a[..4], Zeros(4)), UnpackHi<u32>(a[4..], Zeros(4)));
  }

  // Which two 32-bit lanes go to a 64-bit one.
  lemma {:induction false} FlushedAt(sum32: seq<u32>, sum64: seq<u64>, i: nat)
    requires |sum32| == 8 && |sum64| == 4 && i < 4
    ensures var j := if i < 2 then i else i + 2;
        Flushed(sum32, sum64)[i]
        == AddQword(AddQword(sum64[i], sum32[j]), sum32[j + 2])
  {
    hide AddQword, AsQwords, UnpackLo256, UnpackHi256;
    UnpackedWithZero(sum32);
  }

  lemma {:induction false} TwiceAdded(a: u64, b: u32, c: u32)
    ensures AddQword(AddQword(a, b), c) == W64(a + (b + c))
  {
    Reduced(a + b, 0x1_0000_0000_0000_0000);
    SumModulo(W64(a + b), a + b, c, 0x1_0000_0000_0000_0000);
  }

  lemma {:induction false} FlushedTotal(sum32: seq<u32>, sum64: seq<u64>)
    requires |sum32| == 8 && |sum64| == 4
    ensures W64(Total(Flushed(sum32, sum64))) == W64(Total(sum64) + Total(sum32))
  {
    hide Flushed, AddQword;
    var lanes: seq<nat> := sum32;
    var pairs: seq<nat> := [lanes[0] + lanes[2], lanes[1] + lanes[3], lanes[4] + lanes[6], lanes[5] + lanes[7]];
    var s := Flushed(sum32, sum64);
    forall i | 0 <= i < 4
      ensures s[i] == W64(Plus(sum64, pairs)[i])
    {
      FlushedAt(sum32, sum64, i);
      TwiceAdded(sum64[i], sum32[if i < 2 then i else i + 2], sum32[if i < 2 then i + 2 else i + 4]);
    }
    TracksTotal(s, Plus(sum64, pairs), 0x1_0000_0000_0000_0000);
    TotalPlus(sum64, pairs);
    TotalOfFour(pairs);
    TotalOfFour(sum32[..4]);
    TotalOfFour(sum32[4..]);
    TotalConcat(sum32[..4], sum32[4..]);
    assert sum32[..4] + sum32[4..] == sum32;
  }

  // The 64-bit lanes add up to e.
  ghost predicate Sums(sum64: seq<u64>, e: nat) { |sum64| == 4 && W64(Total(sum64)) == W64(e) }

  lemma {:induction false} NothingSummed()
    ensures Sums([0, 0, 0, 0], 0)
  {
    TotalOfFour([0, 0, 0, 0]);
  }

  lemma {:induction false} FourLanes(sum64: seq<u64>, e: nat)
    requires Sums(sum64, e)
    ensures |sum64| == 4
  {
  }

  lemma {:induction false} FlushStep(sum32: seq<u32>, sum64: seq<u64>, e: nat)
    requires |sum32| == 8 && Sums(sum64, e)
    ensures Sums(Flushed(sum32, sum64), e + Total(sum32))
  {
    hide Flushed;
    FlushedTotal(sum32, sum64);
    SumModulo(Total(sum64), e, Total(sum32), 0x1_0000_0000_0000_0000);
  }

  lemma {:induction false} ZeroLanes()
    ensures AtMost(Zeros(8), 0) && Total(Zeros(8)) == 0
  {
    ZeroTotal(8);
  }

  // The four 64-bit lanes, added pairwise and then together.
  function Together(sum64: seq<u64>): u64
    requires |sum64| == 4
  {
    W64(AddQword(sum64[0], sum64[2]) + AddQword(sum64[1], sum64[3]))
  }

  lemma {:induction false} LanesTogether(sum64: seq<u64>, e: nat)
    requires Sums(sum64, e)
    ensures |sum64| == 4 && Together(sum64) == W64(e)
  {
    var m := 0x1_0000_0000_0000_0000;
    var lanes: seq<nat> := sum64;
    var s, t := lanes[0] + lanes[2], lanes[1] + lanes[3];
    TotalOfFour(sum64);
    Reduced(s, m);
    Reduced(t, m);
    SumModulo(W64(s), s, W64(t), m);
    SumModulo(W64(t), t, s, m);
  }

  // ----- how large an error can be -----

  // No two pixels are further apart.
  ghost predicate Apart(p: Planes, most: nat) {
    forall i, j :: 0 <= i < |p.input| && 0 <= j < |p.recon| ==> Sq(p.input[i], p.recon[j]) <= most
  }

  lemma {:induction false} ErrorAtMost(x: seq<int>, y: seq<int>, most: nat)
    requires |x| == |y| && forall i :: 0 <= i < |x| ==> Sq(x[i], y[i]) <= most
    ensures Error(x, y) <= most * |x|
    decreases |x|
  {
    hide Sq;
    if x != [] {
      ErrorAtMost(x[1..], y[1..], most);
      assert most * |x| == most * |x[1..]| + most;
    }
  }

  lemma {:induction false} BlockAtMost(p: Planes, atIn: nat, atRe: nat, w: nat, n: nat, most: nat)
    requires p.Has(atIn, atRe, w, n) && Apart(p, most)
    ensures BlockError(p, atIn, atRe, w, n) <= most * w * n
    decreases n
  {
    hide Offset, Error, Sq;
    if n > 0 {
      HasFewer(p, atIn, atRe, w, n);
      BlockAtMost(p, atIn, atRe, w, n - 1, most);
      var inp, rec := atIn + Offset(n - 1, p.inputStride), atRe + Offset(n - 1, p.reconStride);
      ErrorAtMost(p.input[inp..inp + w], p.recon[rec..rec + w], most);
      assert most * w * n == most * w * (n - 1) + most * w;
    }
  }
}
