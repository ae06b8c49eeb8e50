/** The distortion of blocks of bytes, with masks for columns that were read but do not belong to the block. */
module SpatialDistortion {
  import opened Arithmetic
  import opened Distortion
  import opened Lanes
  import opened MachineInts
  import opened Simd

  datatype Bytes = Bytes(input: seq<u8>, inputStride: nat, recon: seq<u8>, reconStride: nat) {
    ghost function Planes(): Planes { Distortion.Planes.Planes(input, inputStride, recon, reconStride) }
  }

  // Two pixels of at most 255 in a lane.
  const PAIR_MOST := 2 * 0xFF * 0xFF

  // ----- differences of bytes -----

  function ZeroBytes(n: nat): (z: seq<u8>)
    ensures |z| == n
  {
    Set1(0, n)
  }

  // unpacklo_epi8 and unpackhi_epi8 with zero: bytes 0-7 and 16-23, 8-15 and 24-31, as words.
  function LowWords(b: seq<u8>): (w: seq<u16>)
    requires |b| == 32
    ensures |w| == 16
  {
    AsWords(UnpackLo256<u8>(b, ZeroBytes(32)))
  }

  function HighWords(b: seq<u8>): (w: seq<u16>)
    requires |b| == 32
    ensures |w| == 16
  {
    AsWords(UnpackHi256<u8>(b, ZeroBytes(32)))
  }

  lemma {:induction false} WordsAt(b: seq<u8>, i: nat)
    requires |b| == 32 && i < 8
    ensures LowWords(b)[i] == b[i] && LowWords(b)[8 + i] == b[16 + i] && HighWords(b)[i] == b[8 + i]
        && HighWords(b)[8 + i] == b[24 + i]
  {
    hide UnpackLo256, UnpackHi256;
    UnpackedAt<u8>(b, ZeroBytes(32), i);
  }

  lemma {:induction false} WordsAre(b: seq<u8>)
    requires |b| == 32
    ensures LowWords(b) == b[..8] + b[16..24] && HighWords(b) == b[8..16] + b[24..]
  {
    hide LowWords, HighWords;
    var lo, hi, l, h := LowWords(b), HighWords(b), b[..8] + b[16..24], b[8..16] + b[24..];
    forall i | 0 <= i < 16
      ensures lo[i] == l[i] && hi[i] == h[i]
    {
      WordsAt(b, i % 8);
    }
  }

  // max, min, sub on bytes.
  function AbsBytes(x: seq<u8>, y: seq<u8>): (d: seq<u8>)
    requires |x| == |y|
    ensures |d| == |x|
  {
    SubEpi8(MaxEpu8(x, y), MinEpu8(x, y))
  }

  lemma {:induction false} AbsByte(x: u8, y: u8)
    ensures IsDifference(SubByte(if x < y then y else x, if x < y then x else y), x, y)
  {
  }

  lemma {:induction false} AbsBytesAre(x: seq<u8>, y: seq<u8>)
    requires |x| == |y| == 32
    ensures AreDifferences(LowWords(AbsBytes(x, y)), x[..8] + x[16..24], y[..8] + y[16..24])
    ensures AreDifferences(HighWords(AbsBytes(x, y)), x[8..16] + x[24..], y[8..16] + y[24..])
  {
    hide IsDifference, SubByte, LowWords, HighWords;
    WordsAre(AbsBytes(x, y));
    forall i | 0 <= i < 32
      ensures IsDifference(AbsBytes(x, y)[i], x[i], y[i])
    {
      AbsByte(x[i], y[i]);
    }
  }

  lemma {:induction false} SubBytes(x: u8, y: u8)
    ensures IsDifference(SubLane(x, y), x, y)
  {
  }

  lemma {:induction false} SubAre(x: seq<u16>, y: seq<u16>)
    requires |x| == |y| && OfBytes(x) && OfBytes(y)
    ensures AreDifferences(SubEpi16(x, y), x, y)
  {
    hide IsDifference, SubLane;
    forall i | 0 <= i < |x|
      ensures IsDifference(SubEpi16(x, y)[i], x[i], y[i])
    {
      SubBytes(x[i], y[i]);
    }
  }

  ghost predicate OfBytes(x: seq<int>) { forall i :: 0 <= i < |x| ==> 0 <= x[i] < 0x100 }

  lemma {:induction false} ByteSquare(x: u8, y: u8)
    ensures Sq(x, y) <= 0xFF * 0xFF
  {
    var v := x - y;
    var a := if v < 0 then -v else v;
    assert a * a == v * v;
    MulMonotone(a, 0xFF, a);
    MulMonotone(a, 0xFF, 0xFF);
  }

  lemma {:induction false} PairsAtMost(x: seq<int>, y: seq<int>)
    requires |x| == |y| && |x| % 2 == 0 && OfBytes(x) && OfBytes(y)
    ensures AtMost(PairErrors(x, y), PAIR_MOST)
  {
    hide Sq;
    forall i | 0 <= i < |x| / 2
      ensures PairErrors(x, y)[i] <= PAIR_MOST
    {
      ByteSquare(x[2 * i], y[2 * i]);
      ByteSquare(x[2 * i + 1], y[2 * i + 1]);
    }
  }

  // ----- lanes that may wrap, and what they stand for -----

  ghost predicate Holds(sum: seq<u32>, exact: seq<nat>) { |sum| == |exact| == 8 && Tracks(sum, exact, 0x1_0000_0000) }

  lemma {:induction false} HoldsMore(sum: seq<u32>, exact: seq<nat>, d: seq<u32>)
    requires Holds(sum, exact) && |d| == 8
    ensures Holds(AddEpi32(sum, d), Plus(exact, d))
  {
    forall i | 0 <= i < 8
      ensures AddEpi32(sum, d)[i] == Plus(exact, d)[i] % 0x1_0000_0000
    {
      Reduced(exact[i], 0x1_0000_0000);
      SumModulo(sum[i], exact[i], d[i], 0x1_0000_0000);
    }
  }

  lemma {:induction false} PlusAtMost(a: seq<nat>, b: seq<nat>, most: nat, more: nat)
    requires |a| == |b| && AtMost(a, most) && AtMost(b, more)
    ensures AtMost(Plus(a, b), most + more)
  {
  }

  lemma {:induction false} ZeroHolds()
    ensures Holds(Zeros(8), Zeros(8)) && Total(Zeros(8)) == 0 && AtMost(Zeros(8), 0)
  {
    ZeroLanes();
  }

  // ----- kernels -----

  // distortion: the low quarters of the halves.
  function DistortionLanes(x: seq<u8>, y: seq<u8>): (d: seq<u32>)
    requires |x| == |y| == 32
    ensures |d| == 8
  {
    var diff := SubEpi16(LowWords(x), LowWords(y));
    MaddEpi16(diff, diff)
  }

  lemma {:induction false} DistortionExact(x: seq<u8>, y: seq<u8>)
    requires |x| == |y| == 32
    ensures DistortionLanes(x, y) == PairErrors(x[..8] + x[16..24], y[..8] + y[16..24])
        && AtMost(DistortionLanes(x, y), PAIR_MOST)
    ensures Total(DistortionLanes(x, y)) == Error(x[..8], y[..8]) + Error(x[16..24], y[16..24])
  {
    hide LowWords, SubEpi16, MaddEpi16, PairErrors, AreDifferences;
    WordsAre(x);
    WordsAre(y);
    SubAre(LowWords(x), LowWords(y));
    SquaresExact(SubEpi16(LowWords(x), LowWords(y)), LowWords(x), LowWords(y));
    PairsTotal(LowWords(x), LowWords(y));
    PairsAtMost(LowWords(x), LowWords(y));
    ErrorConcat(x[..8], y[..8], x[16..24], y[16..24]);
  }

  // kernel16: sixteen bytes widened to words.
  function Lanes16(x: seq<u8>, y: seq<u8>): (d: seq<u32>)
    requires |x| == |y| == 16
    ensures |d| == 8
  {
    var diff := SubEpi16(CvtEpu8Epi16Wide(x), CvtEpu8Epi16Wide(y));
    MaddEpi16(diff, diff)
  }

  lemma {:induction false} Lanes16Exact(x: seq<u8>, y: seq<u8>)
    requires |x| == |y| == 16
    ensures Lanes16(x, y) == PairErrors(x, y) && AtMost(Lanes16(x, y), PAIR_MOST)
  {
    hide SubEpi16, MaddEpi16, PairErrors, AreDifferences;
    SubAre(x, y);
    SquaresExact(SubEpi16(x, y), x, y);
    PairsAtMost(x, y);
  }

  // kernel32: the lanes of bytes 0-7 and 16-23, and of 8-15 and 24-31.
  function Lanes32Low(x: seq<u8>, y: seq<u8>): (d: seq<u32>)
    requires |x| == |y| == 32
    ensures |d| == 8
  {
    var diff := LowWords(AbsBytes(x, y));
    MaddEpi16(diff, diff)
  }

  function Lanes32High(x: seq<u8>, y: seq<u8>): (d: seq<u32>)
    requires |x| == |y| == 32
    ensures |d| == 8
  {
    var diff := HighWords(AbsBytes(x, y));
    MaddEpi16(diff, diff)
  }

  lemma {:induction false} Lanes32Exact(x: seq<u8>, y: seq<u8>)
    requires |x| == |y| == 32
    ensures Lanes32Low(x, y) == PairErrors(x[..8] + x[16..24], y[..8] + y[16..24])
        && AtMost(Lanes32Low(x, y), PAIR_MOST)
    ensures Lanes32High(x, y) == PairErrors(x[8..16] + x[24..], y[8..16] + y[24..])
        && AtMost(Lanes32High(x, y), PAIR_MOST)
  {
    hide LowWords, HighWords, AbsBytes, MaddEpi16, PairErrors, AreDifferences;
    AbsBytesAre(x, y);
    SquaresExact(LowWords(AbsBytes(x, y)), x[..8] + x[16..24], y[..8] + y[16..24]);
    SquaresExact(HighWords(AbsBytes(x, y)), x[8..16] + x[24..], y[8..16] + y[24..]);
    PairsAtMost(x[..8] + x[16..24], y[..8] + y[16..24]);
    PairsAtMost(x[8..16] + x[24..], y[8..16] + y[24..]);
  }

  lemma {:induction false} Lanes32Total(x: seq<u8>, y: seq<u8>)
    requires |x| == |y| == 32
    ensures Total(Lanes32Low(x, y)) + Total(Lanes32High(x, y)) == Error(x, y)
  {
    hide Lanes32Low, Lanes32High, PairErrors, Error, Total;
    Lanes32Exact(x, y);
    PairsTotal(x[..8] + x[16..24], y[..8] + y[16..24]);
    PairsTotal(x[8..16] + x[24..], y[8..16] + y[24..]);
    ErrorConcat(x[..8], y[..8], x[16..24], y[16..24]);
    ErrorConcat(x[8..16], y[8..16], x[24..], y[24..]);
    ErrorConcat(x[..8], y[..8], x[8..16], y[8..16]);
    ErrorConcat(x[16..24], y[16..24], x[24..], y[24..]);
    ErrorConcat(x[..8] + x[8..16], y[..8] + y[8..16], x[16..24] + x[24..], y[16..24] + y[24..]);
    assert x[..8] + x[8..16] + (x[16..24] + x[24..]) == x && y[..8] + y[8..16] + (y[16..24] + y[24..]) == y;
  }

  // ----- lanes of columns -----

  lemma {:induction false} HasPart(p: Planes, atIn: nat, atRe: nat, w: nat, n: nat, c: nat, v: nat)
    requires p.Has(atIn, atRe, w, n) && c + v <= w
    ensures p.Has(atIn + c, atRe + c, v, n)
  {
    hide Offset;
  }

  ghost predicate Within(cols: seq<nat>, w: nat) { |cols| == 8 && forall i :: 0 <= i < 8 ==> cols[i] + 2 <= w }

  // The error of the two columns at each of eight places.
  ghost function ColumnErrors(p: Planes, atIn: nat, atRe: nat, w: nat, cols: seq<nat>, n: nat): (lanes: seq<nat>)
    requires p.Has(atIn, atRe, w, n) && Within(cols, w)
    ensures |lanes| == 8
  {
    seq(8, i requires 0 <= i < 8 => HasPart(p, atIn, atRe, w, n, cols[i], 2);
        BlockError(p, atIn + cols[i], atRe + cols[i], 2, n))
  }

  // The same of one row.
  ghost predicate AreColumns(d: seq<nat>, p: Planes, inp: nat, rec: nat, w: nat, cols: seq<nat>) {
    && |d| == 8 && Within(cols, w) && inp + w <= |p.input| && rec + w <= |p.recon|
    && forall i :: 0 <= i < 8 ==> d[i] == RowError(p, inp + cols[i], rec + cols[i], 2)
  }

  lemma {:induction false} ColumnStep(p: Planes, atIn: nat, atRe: nat, w: nat, cols: seq<nat>, n: nat, y: nat,
                                      d: seq<nat>)
    requires p.Has(atIn, atRe, w, n) && y < n && Within(cols, w)
    requires AreColumns(d, p, atIn + Offset(y, p.inputStride), atRe + Offset(y, p.reconStride), w, cols)
    ensures p.Has(atIn, atRe, w, y) && p.Has(atIn, atRe, w, y + 1)
    ensures ColumnErrors(p, atIn, atRe, w, cols, y + 1) == Plus(ColumnErrors(p, atIn, atRe, w, cols, y), d)
  {
    hide BlockError, RowError, Offset, Planes.Has;
    NextRow(p, atIn, atRe, w, n, y);
    var before, after := ColumnErrors(p, atIn, atRe, w, cols, y), ColumnErrors(p, atIn, atRe, w, cols, y + 1);
    forall i | 0 <= i < 8
      ensures after[i] == before[i] + d[i]
    {
      HasPart(p, atIn, atRe, w, n, cols[i], 2);
      NextRow(p, atIn + cols[i], atRe + cols[i], 2, n, y);
    }
  }

  lemma {:induction false} NoColumns(p: Planes, atIn: nat, atRe: nat, w: nat, cols: seq<nat>)
    requires Within(cols, w)
    ensures p.Has(atIn, atRe, w, 0) && ColumnErrors(p, atIn, atRe, w, cols, 0) == Zeros(8)
  {
  }

  // Lanes of neighbouring columns add up to the error of the columns together.
  lemma {:induction false} RunOfColumns(p: Planes, atIn: nat, atRe: nat, w: nat, cols: seq<nat>, n: nat, from: nat,
                                        k: nat, c: nat)
    requires p.Has(atIn, atRe, w, n) && Within(cols, w) && from + k <= 8 && c + 2 * k <= w
    requires forall j :: from <= j < from + k ==> cols[j] == c + 2 * (j - from)
    ensures p.Has(atIn + c, atRe + c, 2 * k, n)
    ensures Total(ColumnErrors(p, atIn, atRe, w, cols, n)[from..from + k])
        == BlockError(p, atIn + c, atRe + c, 2 * k, n)
    decreases k
  {
    hide Offset, Planes.Has, BlockError;
    HasPart(p, atIn, atRe, w, n, c, 2 * k);
    var lanes := ColumnErrors(p, atIn, atRe, w, cols, n);
    if k == 0 {
      NoWidth(p, atIn + c, atRe + c, n);
    } else {
      SplitColumns(p, atIn + c, atRe + c, 2 * k, 2, n);
      RunOfColumns(p, atIn, atRe, w, cols, n, from + 1, k - 1, c + 2);
      assert lanes[from..from + k][1..] == lanes[from + 1..from + 1 + (k - 1)];
    }
  }

  lemma {:induction false} NoWidth(p: Planes, atIn: nat, atRe: nat, n: nat)
    requires p.Has(atIn, atRe, 0, n)
    ensures BlockError(p, atIn, atRe, 0, n) == 0
    decreases n
  {
    hide Offset, Planes.Has;
    if n > 0 {
      HasFewer(p, atIn, atRe, 0, n);
      NoWidth(p, atIn, atRe, n - 1);
      NextRow(p, atIn, atRe, 0, n, n - 1);
      EmptyRow(p, atIn + Offset(n - 1, p.inputStride), atRe + Offset(n - 1, p.reconStride));
    }
  }

  // ----- masks -----

  // and with all ones in the first k lanes and zeros in the others.
  function AndFirst(sum: seq<u32>, k: nat): (s: seq<u32>)
    requires |sum| == 8 && k <= 8
    ensures |s| == 8
  {
    sum[..k] + Zeros(8 - k)
  }

  ghost function First(exact: seq<nat>, k: nat): (s: seq<nat>)
    requires |exact| == 8 && k <= 8
    ensures |s| == 8
  {
    exact[..k] + Zeros(8 - k)
  }

  lemma {:induction false} FirstHolds(sum: seq<u32>, exact: seq<nat>, k: nat, most: nat)
    requires Holds(sum, exact) && k <= 8 && AtMost(exact, most)
    ensures Holds(AndFirst(sum, k), First(exact, k)) && AtMost(First(exact, k), most)
    ensures Total(First(exact, k)) == Total(exact[..k])
  {
    ZeroTotal(8 - k);
    TotalConcat(exact[..k], Zeros(8 - k));
  }

  const COLUMNS: seq<nat> := [0, 2, 4, 6, 8, 10, 12, 14]
  const COLUMNS_LOW: seq<nat> := [0, 2, 4, 6, 16, 18, 20, 22]
  const COLUMNS_HIGH: seq<nat> := [8, 10, 12, 14, 24, 26, 28, 30]

  // How many lanes of the two registers are kept for 20, 24 and 28 columns.
  function KeepLow(leftover: nat): nat { if leftover == 20 then 6 else 8 }

  function KeepHigh(leftover: nat): nat { if leftover == 28 then 6 else 4 }

  // The lanes kept are those of the columns of the block.
  lemma {:induction false} KeptColumns(p: Planes, atIn: nat, atRe: nat, leftover: nat, n: nat)
    requires p.Has(atIn, atRe, 32, n) && leftover in {20, 24, 28}
    ensures p.Has(atIn, atRe, leftover, n)
    ensures
      var low, high := ColumnErrors(p, atIn, atRe, 32, COLUMNS_LOW, n),
          ColumnErrors(p, atIn, atRe, 32, COLUMNS_HIGH, n);
      Total(low[..KeepLow(leftover)]) + Total(high[..KeepHigh(leftover)]) == BlockError(p, atIn, atRe, leftover, n)
  {
    hide Offset, Planes.Has, BlockError, ColumnErrors;
    var low, high := ColumnErrors(p, atIn, atRe, 32, COLUMNS_LOW, n), ColumnErrors(p, atIn, atRe, 32, COLUMNS_HIGH, n);
    var k, l := KeepLow(leftover), KeepHigh(leftover);
    HasPart(p, atIn, atRe, 32, n, 0, leftover);
    RunOfColumns(p, atIn, atRe, 32, COLUMNS_LOW, n, 0, 4, 0);
    RunOfColumns(p, atIn, atRe, 32, COLUMNS_LOW, n, 4, k - 4, 16);
    RunOfColumns(p, atIn, atRe, 32, COLUMNS_HIGH, n, 0, 4, 8);
    RunOfColumns(p, atIn, atRe, 32, COLUMNS_HIGH, n, 4, l - 4, 24);
    TotalConcat(low[0..4], low[4..k]);
    TotalConcat(high[0..4], high[4..l]);
    assert low[0..4] + low[4..k] == low[..k] && high[0..4] + high[4..l] == high[..l];
    SplitColumns(p, atIn, atRe, leftover, 16, n);
    SplitColumns(p, atIn, atRe, 16, 8, n);
    SplitColumns(p, atIn + 16, atRe + 16, leftover - 16, if leftover == 20 then 4 else 8, n);
    if leftover != 28 {
      NoWidth(p, atIn + 24, atRe + 24, n);
    }
  }

  lemma {:induction false} KeptOfSixteen(p: Planes, atIn: nat, atRe: nat, leftover: nat, n: nat)
    requires p.Has(atIn, atRe, 16, n) && leftover in {12, 16}
    ensures p.Has(atIn, atRe, leftover, n)
    ensures Total(ColumnErrors(p, atIn, atRe, 16, COLUMNS, n)[..leftover / 2]) == BlockError(p, atIn, atRe, leftover, n)
  {
    hide Offset, Planes.Has, BlockError, ColumnErrors;
    HasPart(p, atIn, atRe, 16, n, 0, leftover);
    RunOfColumns(p, atIn, atRe, 16, COLUMNS, n, 0, leftover / 2, 0);
  }

  // ----- the lanes of a row are those of columns -----

  lemma {:induction false} PairIsRow(p: Planes, inp: nat, rec: nat)
    requires inp + 2 <= |p.input| && rec + 2 <= |p.recon|
    ensures RowError(p, inp, rec, 2) == Sq(p.input[inp], p.recon[rec]) + Sq(p.input[inp + 1], p.recon[rec + 1])
  {
    hide Sq;
    var x, y := p.input[inp..inp + 2], p.recon[rec..rec + 2];
    assert Error(x, y) == Sq(x[0], y[0]) + Error(x[1..], y[1..]);
    assert Error(x[1..], y[1..]) == Sq(x[1], y[1]);
  }

  lemma {:induction false} Row16Columns(b: Bytes, inp: nat, rec: nat)
    requires inp + 16 <= |b.input| && rec + 16 <= |b.recon|
    ensures AreColumns(PairErrors(Load(b.input, inp, 16), Load(b.recon, rec, 16)), b.Planes(), inp, rec, 16, COLUMNS)
  {
    hide Sq, RowError;
    var x, y := Load(b.input, inp, 16), Load(b.recon, rec, 16);
    forall i | 0 <= i < 8
      ensures PairErrors(x, y)[i] == RowError(b.Planes(), inp + COLUMNS[i], rec + COLUMNS[i], 2)
    {
      assert COLUMNS[i] == 2 * i;
      PairIsRow(b.Planes(), inp + 2 * i, rec + 2 * i);
    }
  }

  lemma {:induction false} PickedFromHalves(x: seq<int>, c: nat, i: nat)
    requires |x| == 32 && (c == 0 || c == 8) && i < 8
    ensures
      var u, j := x[c..c + 8] + x[16 + c..24 + c], c + COLUMNS_LOW[i];
      j + 1 < 32 && u[2 * i] == x[j] && u[2 * i + 1] == x[j + 1]
  {
    var a, b := x[c..c + 8], x[16 + c..24 + c];
    if i < 4 {
      assert COLUMNS_LOW[i] == 2 * i;
      assert (a + b)[2 * i] == a[2 * i] && (a + b)[2 * i + 1] == a[2 * i + 1];
    } else {
      var k := 2 * i - 8;
      assert COLUMNS_LOW[i] == 16 + k;
      assert (a + b)[2 * i] == b[k] == x[16 + c + k] && (a + b)[2 * i + 1] == b[k + 1] == x[16 + c + (k + 1)];
    }
  }

  lemma {:induction false} PairsOfHalves(x: seq<int>, y: seq<int>, c: nat, i: nat)
    requires |x| == |y| == 32 && (c == 0 || c == 8) && i < 8
    ensures
      var e := PairErrors(x[c..c + 8] + x[16 + c..24 + c], y[c..c + 8] + y[16 + c..24 + c]);
      var j := c + COLUMNS_LOW[i];
      j + 1 < 32 && e[i] == Sq(x[j], y[j]) + Sq(x[j + 1], y[j + 1])
  {
    hide Sq;
    PickedFromHalves(x, c, i);
    PickedFromHalves(y, c, i);
  }

  lemma {:induction false} Row32Columns(b: Bytes, inp: nat, rec: nat)
    requires inp + 32 <= |b.input| && rec + 32 <= |b.recon|
    ensures
      var x, y := Load(b.input, inp, 32), Load(b.recon, rec, 32);
      && AreColumns(PairErrors(x[..8] + x[16..24], y[..8] + y[16..24]), b.Planes(), inp, rec, 32, COLUMNS_LOW)
      && AreColumns(PairErrors(x[8..16] + x[24..], y[8..16] + y[24..]), b.Planes(), inp, rec, 32, COLUMNS_HIGH)
  {
    hide Sq, RowError, PairErrors;
    var x, y := Load(b.input, inp, 32), Load(b.recon, rec, 32);
    assert x[0..8] == x[..8] && y[0..8] == y[..8] && x[24..32] == x[24..] && y[24..32] == y[24..];
    var low, high := PairErrors(x[..8] + x[16..24], y[..8] + y[16..24]),
        PairErrors(x[8..16] + x[24..], y[8..16] + y[24..]);
    forall i | 0 <= i < 8
      ensures low[i] == RowError(b.Planes(), inp + COLUMNS_LOW[i], rec + COLUMNS_LOW[i], 2)
      ensures high[i] == RowError(b.Planes(), inp + COLUMNS_HIGH[i], rec + COLUMNS_HIGH[i], 2)
    {
      var c := COLUMNS_LOW[i];
      PairsOfHalves(x, y, 0, i);
      PairsOfHalves(x, y, 8, i);
      assert COLUMNS_HIGH[i] == c + 8;
      PairIsRow(b.Planes(), inp + c, rec + c);
      PairIsRow(b.Planes(), inp + c + 8, rec + c + 8);
    }
  }

  // ----- the columns left of a multiple of 32 -----

  // Four or eight bytes of two rows, each padded with zeros to a half.
  function TwoPadded(memory: seq<u8>, at: nat, stride: nat, n: nat): (x: seq<u8>)
    requires n <= 8 && at + n <= |memory| && at + stride + n <= |memory|
    ensures |x| == 32
  {
    SetM128i(Load(memory, at + stride, n) + ZeroBytes(16 - n), Load(memory, at, n) + ZeroBytes(16 - n))
  }

  lemma {:induction false} PaddedQuarters(memory: seq<u8>, at: nat, stride: nat, n: nat)
    requires n <= 8 && at + n <= |memory| && at + stride + n <= |memory|
    ensures TwoPadded(memory, at, stride, n)[..8] == Load(memory, at, n) + ZeroBytes(8 - n)
    ensures TwoPadded(memory, at, stride, n)[16..24] == Load(memory, at + stride, n) + ZeroBytes(8 - n)
  {
  }

  lemma {:induction false} PaddedError(b: Bytes, inp: nat, rec: nat, n: nat)
    requires n <= 8 && inp + n <= |b.input| && rec + n <= |b.recon|
    ensures Error(Load(b.input, inp, n) + ZeroBytes(8 - n), Load(b.recon, rec, n) + ZeroBytes(8 - n))
        == RowError(b.Planes(), inp, rec, n)
  {
    var z: seq<int> := ZeroBytes(8 - n);
    ErrorConcat(Load(b.input, inp, n), Load(b.recon, rec, n), z, z);
    ZeroError(8 - n);
    assert z == Set1(0, 8 - n);
  }

  // What two rows of four or eight columns add; four columns leave the upper lanes of each half zero.
  lemma {:induction false} NarrowLanes(b: Bytes, inp: nat, rec: nat, n: nat)
    requires n in {4, 8} && inp + n <= |b.input| && rec + n <= |b.recon|
    requires inp + b.inputStride + n <= |b.input| && rec + b.reconStride + n <= |b.recon|
    ensures
      var d := DistortionLanes(TwoPadded(b.input, inp, b.inputStride, n), TwoPadded(b.recon, rec, b.reconStride, n));
      && AtMost(d, PAIR_MOST)
      && Total(d) == RowError(b.Planes(), inp, rec, n)
           + RowError(b.Planes(), inp + b.inputStride, rec + b.reconStride, n)
      && (n == 4 ==> d[2] == d[3] == d[6] == d[7] == 0)
  {
    hide DistortionLanes, TwoPadded, Load, RowError, Error, Total, Sq, AtMost;
    var x, y := TwoPadded(b.input, inp, b.inputStride, n), TwoPadded(b.recon, rec, b.reconStride, n);
    DistortionExact(x, y);
    PaddedQuarters(b.input, inp, b.inputStride, n);
    PaddedQuarters(b.recon, rec, b.reconStride, n);
    PaddedError(b, inp, rec, n);
    PaddedError(b, inp + b.inputStride, rec + b.reconStride, n);
    if n == 4 {
      ZeroPairs(x[..8] + x[16..24], y[..8] + y[16..24]);
    }
  }

  lemma {:induction false} ZeroPairs(x: seq<int>, y: seq<int>)
    requires |x| == |y| == 16 && forall i :: 4 <= i % 8 && 0 <= i < 16 ==> x[i] == y[i] == 0
    ensures var e := PairErrors(x, y); e[2] == e[3] == e[6] == e[7] == 0
  {
    assert x[4] == x[5] == x[6] == x[7] == x[12] == x[13] == x[14] == x[15] == 0;
    assert y[4] == y[5] == y[6] == y[7] == y[12] == y[13] == y[14] == y[15] == 0;
    assert Sq(0, 0) == 0;
  }

  // Lanes hold exact sums of an error, no lane of them large.
  ghost predicate Sound(sum: seq<u32>, exact: seq<nat>, e: nat, most: nat) {
    Holds(sum, exact) && Total(exact) == e && AtMost(exact, most)
  }

  lemma {:induction false} SoundMore(sum: seq<u32>, exact: seq<nat>, e: nat, most: nat, d: seq<u32>, more: nat)
    requires Sound(sum, exact, e, most) && |d| == 8 && AtMost(d, more)
    ensures Sound(AddEpi32(sum, d), Plus(exact, d), e + Total(d), most + more)
  {
    hide AddEpi32, AtMost, Holds, Plus;
    HoldsMore(sum, exact, d);
    TotalPlus(exact, d);
    PlusAtMost(exact, d, most, more);
  }

  lemma {:induction false} SoundTotal(sum: seq<u32>, exact: seq<nat>, e: nat, most: nat)
    requires Sound(sum, exact, e, most)
    ensures |sum| == 8 && W32(Total(sum)) == W32(e)
  {
    hide Total;
    TracksTotal(sum, exact, 0x1_0000_0000);
  }

  method LeftoverNarrow(b: Bytes, atIn: nat, atRe: nat, leftover: nat, height: nat)
    returns (sum: seq<u32>, ghost exact: seq<nat>)
    requires leftover in {4, 8} && height > 0 && height % 2 == 0 && b.Planes().Has(atIn, atRe, leftover, height)
    ensures Sound(sum, exact, BlockError(b.Planes(), atIn, atRe, leftover, height), 2 * PAIR_MOST * height)
    ensures |sum| == 8 && W32(Total(sum)) == W32(BlockError(b.Planes(), atIn, atRe, leftover, height))
    ensures |exact| == 8 && (leftover == 4 ==> exact[2] == exact[3] == exact[6] == exact[7] == 0)
  {
    hide DistortionLanes, TwoPadded, RowError, BlockError, Offset, Planes.Has, Sound, AddEpi32, AtMost, Total, W32;
    ghost var p := b.Planes();
    NoRows(p, atIn, atRe, leftover);
    ZeroSound();
    sum, exact := Zeros(8), Zeros(8);
    var inp, rec := atIn, atRe;
    var y := 0;
    while y < height
      invariant y <= height && y % 2 == 0
      invariant p.Has(atIn, atRe, leftover, y) && inp == atIn + Offset(y, p.inputStride)
          && rec == atRe + Offset(y, p.reconStride)
      invariant |sum| == |exact| == 8 && Sound(sum, exact, BlockError(p, atIn, atRe, leftover, y), 2 * PAIR_MOST * y)
      invariant leftover == 4 ==> exact[2] == exact[3] == exact[6] == exact[7] == 0
    {
      NextRow(p, atIn, atRe, leftover, height, y);
      NextRow(p, atIn, atRe, leftover, height, y + 1);
      NarrowLanes(b, inp, rec, leftover);
      var d := DistortionLanes(TwoPadded(b.input, inp, b.inputStride, leftover),
                               TwoPadded(b.recon, rec, b.reconStride, leftover));
      SoundMore(sum, exact, BlockError(p, atIn, atRe, leftover, y), 2 * PAIR_MOST * y, d, PAIR_MOST);
      sum, exact := AddEpi32(sum, d), Plus(exact, d);
      SoundWider(sum, exact, BlockError(p, atIn, atRe, leftover, y + 2), 2 * PAIR_MOST * y + PAIR_MOST,
                 2 * PAIR_MOST * (y + 2));
      inp, rec, y := inp + 2 * b.inputStride, rec + 2 * b.reconStride, y + 2;
    }
    SoundTotal(sum, exact, BlockError(p, atIn, atRe, leftover, height), 2 * PAIR_MOST * height);
  }

  lemma {:induction false} ZeroSound()
    ensures Sound(Zeros(8), Zeros(8), 0, 0)
  {
    ZeroHolds();
  }

  lemma {:induction false} SoundWider(sum: seq<u32>, exact: seq<nat>, e: nat, most: nat, more: nat)
    requires Sound(sum, exact, e, most) && most <= more
    ensures Sound(sum, exact, e, more) && |sum| == |exact| == 8
  {
  }

  // Twelve or sixteen columns: sixteen are read; of twelve the lanes of the last four are dropped.
  method LeftoverMiddle(b: Bytes, atIn: nat, atRe: nat, leftover: nat, height: nat)
    returns (sum: seq<u32>, ghost exact: seq<nat>)
    requires leftover in {12, 16} && height > 0 && b.Planes().Has(atIn, atRe, 16, height)
    ensures b.Planes().Has(atIn, atRe, leftover, height)
    ensures Sound(sum, exact, BlockError(b.Planes(), atIn, atRe, leftover, height), 2 * PAIR_MOST * height)
        && |sum| == 8
  {
    hide Lanes16, RowError, BlockError, Offset, Planes.Has, AddEpi32, AtMost, ColumnErrors, AndFirst, First, Load,
        Total, Holds, AreColumns, PairErrors;
    ghost var p := b.Planes();
    NoRows(p, atIn, atRe, 16);
    NoColumns(p, atIn, atRe, 16, COLUMNS);
    ZeroHolds();
    sum, exact := Zeros(8), Zeros(8);
    var inp, rec := atIn, atRe;
    for y := 0 to height
      invariant p.Has(atIn, atRe, 16, y) && inp == atIn + Offset(y, p.inputStride)
          && rec == atRe + Offset(y, p.reconStride)
      invariant |sum| == 8 && Holds(sum, exact) && exact == ColumnErrors(p, atIn, atRe, 16, COLUMNS, y)
          && AtMost(exact, PAIR_MOST * y)
    {
      NextRow(p, atIn, atRe, 16, height, y);
      var x, z := Load(b.input, inp, 16), Load(b.recon, rec, 16);
      Lanes16Exact(x, z);
      Row16Columns(b, inp, rec);
      ColumnStep(p, atIn, atRe, 16, COLUMNS, height, y, PairErrors(x, z));
      HoldsMore(sum, exact, Lanes16(x, z));
      PlusAtMost(exact, PairErrors(x, z), PAIR_MOST * y, PAIR_MOST);
      sum, exact := AddEpi32(sum, Lanes16(x, z)), Plus(exact, PairErrors(x, z));
      inp, rec := inp + b.inputStride, rec + b.reconStride;
    }
    KeptOfSixteen(p, atIn, atRe, leftover, height);
    if leftover == 12 {
      FirstHolds(sum, exact, 6, PAIR_MOST * height);
      sum, exact := AndFirst(sum, 6), First(exact, 6);
    } else {
      assert exact[..8] == exact;
    }
    SoundWider(sum, exact, BlockError(p, atIn, atRe, leftover, height), PAIR_MOST * height, 2 * PAIR_MOST * height);
  }

  lemma {:induction false} HoldsSum(a: seq<u32>, exactA: seq<nat>, b: seq<u32>, exactB: seq<nat>)
    requires Holds(a, exactA) && Holds(b, exactB)
    ensures Holds(AddEpi32(a, b), Plus(exactA, exactB))
  {
    forall i | 0 <= i < 8
      ensures AddEpi32(a, b)[i] == Plus(exactA, exactB)[i] % 0x1_0000_0000
    {
      Reduced(exactA[i], 0x1_0000_0000);
      Reduced(exactB[i], 0x1_0000_0000);
      SumModulo(a[i], exactA[i], b[i], 0x1_0000_0000);
      SumModulo(b[i], exactB[i], exactA[i], 0x1_0000_0000);
    }
  }

  // 20, 24 and 28 columns: 32 are read into two registers, and the lanes of the others dropped.
  method LeftoverWide(b: Bytes, atIn: nat, atRe: nat, leftover: nat, height: nat)
    returns (sum: seq<u32>, ghost exact: seq<nat>)
    requires leftover in {20, 24, 28} && height > 0 && b.Planes().Has(atIn, atRe, 32, height)
    ensures b.Planes().Has(atIn, atRe, leftover, height)
    ensures Sound(sum, exact, BlockError(b.Planes(), atIn, atRe, leftover, height), 2 * PAIR_MOST * height)
        && |sum| == 8
  {
    hide Lanes32Low, Lanes32High, RowError, BlockError, Offset, Planes.Has, AddEpi32, AtMost, ColumnErrors, AndFirst,
        First, Load, Total, Holds,
         AreColumns, PairErrors;
    ghost var p := b.Planes();
    NoRows(p, atIn, atRe, 32);
    NoColumns(p, atIn, atRe, 32, COLUMNS_LOW);
    NoColumns(p, atIn, atRe, 32, COLUMNS_HIGH);
    ZeroHolds();
    sum, exact := Zeros(8), Zeros(8);
    var sum1 := Zeros(8);
    ghost var exact1: seq<nat> := Zeros(8);
    var inp, rec := atIn, atRe;
    for y := 0 to height
      invariant p.Has(atIn, atRe, 32, y) && inp == atIn + Offset(y, p.inputStride)
          && rec == atRe + Offset(y, p.reconStride)
      invariant |sum| == |sum1| == 8 && Holds(sum, exact) && Holds(sum1, exact1)
      invariant exact == ColumnErrors(p, atIn, atRe, 32, COLUMNS_LOW, y) && AtMost(exact, PAIR_MOST * y)
      invariant exact1 == ColumnErrors(p, atIn, atRe, 32, COLUMNS_HIGH, y) && AtMost(exact1, PAIR_MOST * y)
    {
      NextRow(p, atIn, atRe, 32, height, y);
      var x, z := Load(b.input, inp, 32), Load(b.recon, rec, 32);
      sum, exact, sum1, exact1 := AddWideRow(b, inp, rec, sum, exact, sum1, exact1, PAIR_MOST * y);
      ColumnStep(p, atIn, atRe, 32, COLUMNS_LOW, height, y, Lanes32Low(x, z));
      ColumnStep(p, atIn, atRe, 32, COLUMNS_HIGH, height, y, Lanes32High(x, z));
      inp, rec := inp + b.inputStride, rec + b.reconStride;
    }
    KeptColumns(p, atIn, atRe, leftover, height);
    FirstHolds(sum, exact, KeepLow(leftover), PAIR_MOST * height);
    FirstHolds(sum1, exact1, KeepHigh(leftover), PAIR_MOST * height);
    sum, exact := AndFirst(sum, KeepLow(leftover)), First(exact, KeepLow(leftover));
    sum1, exact1 := AndFirst(sum1, KeepHigh(leftover)), First(exact1, KeepHigh(leftover));
    HoldsSum(sum, exact, sum1, exact1);
    TotalPlus(exact, exact1);
    PlusAtMost(exact, exact1, PAIR_MOST * height, PAIR_MOST * height);
    sum, exact := AddEpi32(sum, sum1), Plus(exact, exact1);
  }

  method AddWideRow(b: Bytes, inp: nat, rec: nat, sum: seq<u32>, ghost exact: seq<nat>, sum1: seq<u32>,
                    ghost exact1: seq<nat>, ghost most: nat)
    returns (s: seq<u32>, ghost e: seq<nat>, s1: seq<u32>, ghost e1: seq<nat>)
    requires inp + 32 <= |b.input| && rec + 32 <= |b.recon|
    requires |sum| == |sum1| == |exact| == |exact1| == 8
    requires Holds(sum, exact) && Holds(sum1, exact1) && AtMost(exact, most) && AtMost(exact1, most)
    ensures |s| == |s1| == 8 && Holds(s, e) && Holds(s1, e1) && AtMost(e, most + PAIR_MOST)
        && AtMost(e1, most + PAIR_MOST)
    ensures
      var x, z := Load(b.input, inp, 32), Load(b.recon, rec, 32);
      && e == Plus(exact, Lanes32Low(x, z)) && e1 == Plus(exact1, Lanes32High(x, z))
      && AreColumns(Lanes32Low(x, z), b.Planes(), inp, rec, 32, COLUMNS_LOW)
      && AreColumns(Lanes32High(x, z), b.Planes(), inp, rec, 32, COLUMNS_HIGH)
  {
    hide Lanes32Low, Lanes32High, RowError, AddEpi32, AtMost, Load, Holds, AreColumns, PairErrors;
    var x, z := Load(b.input, inp, 32), Load(b.recon, rec, 32);
    Lanes32Exact(x, z);
    Row32Columns(b, inp, rec);
    HoldsMore(sum, exact, Lanes32Low(x, z));
    HoldsMore(sum1, exact1, Lanes32High(x, z));
    PlusAtMost(exact, Lanes32Low(x, z), most, PAIR_MOST);
    PlusAtMost(exact1, Lanes32High(x, z), most, PAIR_MOST);
    s, s1 := AddEpi32(sum, Lanes32Low(x, z)), AddEpi32(sum1, Lanes32High(x, z));
    e, e1 := Plus(exact, Lanes32Low(x, z)), Plus(exact1, Lanes32High(x, z));
  }

  // ----- whole thirty-twos -----

  // kernel32: both parts of a row of 32 bytes in one register.
  function Lanes32(x: seq<u8>, y: seq<u8>): (d: seq<u32>)
    requires |x| == |y| == 32
    ensures |d| == 8
  {
    AddEpi32(Lanes32Low(x, y), Lanes32High(x, y))
  }

  lemma {:induction false} Lanes32Adds(b: Bytes, inp: nat, rec: nat)
    requires inp + 32 <= |b.input| && rec + 32 <= |b.recon|
    ensures
      var d := Lanes32(Load(b.input, inp, 32), Load(b.recon, rec, 32));
      AtMost(d, 2 * PAIR_MOST) && Total(d) == RowError(b.Planes(), inp, rec, 32)
  {
    hide Lanes32Low, Lanes32High, PairErrors, Error, Total;
    var x, y := Load(b.input, inp, 32), Load(b.recon, rec, 32);
    Lanes32Exact(x, y);
    Lanes32Total(x, y);
    assert Lanes32(x, y) == Plus(Lanes32Low(x, y), Lanes32High(x, y));
    TotalPlus(Lanes32Low(x, y), Lanes32High(x, y));
  }

  // One row: two, three and four kernels are unrolled in the source.
  method WholeRow(b: Bytes, inp: nat, rec: nat, width: nat, sum0: seq<u32>, ghost exact0: seq<nat>, ghost e: nat,
                  ghost most: nat)
    returns (sum: seq<u32>, ghost exact: seq<nat>)
    requires width % 32 == 0 && inp + width <= |b.input| && rec + width <= |b.recon| && |sum0| == |exact0| == 8
    requires Sound(sum0, exact0, e, most)
    ensures |sum| == |exact| == 8 && W32(Total(sum)) == W32(e + RowError(b.Planes(), inp, rec, width))
    ensures Sound(sum, exact, e + RowError(b.Planes(), inp, rec, width), most + 2 * PAIR_MOST * (width / 32))
  {
    hide Lanes32, Load, RowError, Sound, AddEpi32, AtMost, Plus, Total, W32;
    EmptyRow(b.Planes(), inp, rec);
    sum, exact := sum0, exact0;
    var w := 0;
    while w < width
      invariant w <= width && w % 32 == 0 && |sum| == |exact| == 8
      invariant Sound(sum, exact, e + RowError(b.Planes(), inp, rec, w), most + 2 * PAIR_MOST * (w / 32))
    {
      SplitRow(b.Planes(), inp, rec, w + 32, w);
      Lanes32Adds(b, inp + w, rec + w);
      var d := Lanes32(Load(b.input, inp + w, 32), Load(b.recon, rec + w, 32));
      SoundMore(sum, exact, e + RowError(b.Planes(), inp, rec, w), most + 2 * PAIR_MOST * (w / 32), d, 2 * PAIR_MOST);
      sum, exact := AddEpi32(sum, d), Plus(exact, d);
      w := w + 32;
    }
    SoundTotal(sum, exact, e + RowError(b.Planes(), inp, rec, width), most + 2 * PAIR_MOST * (width / 32));
  }

  // Up to 128 columns: 32-bit lanes to the end.
  method WholeNarrow(b: Bytes, atIn: nat, atRe: nat, width: nat, height: nat, sum0: seq<u32>, ghost exact0: seq<nat>,
                     ghost e: nat, ghost most0: nat)
    returns (sum: seq<u32>, ghost exact: seq<nat>, ghost most: nat)
    requires width % 32 == 0 && height > 0 && b.Planes().Has(atIn, atRe, width, height) && |sum0| == |exact0| == 8
    requires Sound(sum0, exact0, e, most0)
    ensures |sum| == 8 && W32(Total(sum)) == W32(e + BlockError(b.Planes(), atIn, atRe, width, height))
    ensures |exact| == 8 && Sound(sum, exact, e + BlockError(b.Planes(), atIn, atRe, width, height), most)
  {
    hide RowError, BlockError, Offset, Planes.Has, Sound, Total, W32;
    ghost var p := b.Planes();
    NoRows(p, atIn, atRe, width);
    sum, exact, most := sum0, exact0, most0;
    var inp, rec := atIn, atRe;
    for y := 0 to height
      invariant p.Has(atIn, atRe, width, y) && inp == atIn + Offset(y, p.inputStride)
          && rec == atRe + Offset(y, p.reconStride)
      invariant |sum| == |exact| == 8 && Sound(sum, exact, e + BlockError(p, atIn, atRe, width, y), most)
    {
      NextRow(p, atIn, atRe, width, height, y);
      sum, exact := WholeRow(b, inp, rec, width, sum, exact, e + BlockError(p, atIn, atRe, width, y), most);
      most := most + 2 * PAIR_MOST * (width / 32);
      inp, rec := inp + b.inputStride, rec + b.reconStride;
    }
    SoundTotal(sum, exact, e + BlockError(p, atIn, atRe, width, height), most);
  }

  // How many rows of leftover columns the lanes hold when the first row of the others is added.
  function RowsLeftOver(width: nat, height: nat): nat { if width % 32 == 0 then 0 else height }

  // The lanes of one row, and those of the leftover columns of all rows, fit in 32 bits.
  predicate LanesFit(width: nat, height: nat) { TogetherFit(RowsLeftOver(width, height), width) }

  predicate TogetherFit(rows: nat, width: nat) { rows + width / 32 <= 16512 }

  lemma {:induction false} WholeFits(width: nat, height: nat)
    ensures var rows := RowsLeftOver(width, height); LanesFit(width, height) == TogetherFit(rows, width - width % 32)
    ensures RowsLeftOver(width, height) == if width % 32 == 0 then 0 else height
  {
  }

  lemma {:induction false} SoundIsExact(sum: seq<u32>, exact: seq<nat>, e: nat, most: nat)
    requires Sound(sum, exact, e, most) && most < 0x1_0000_0000
    ensures |sum| == 8 && Total(sum) == e
  {
    hide Total;
    forall i | 0 <= i < 8
      ensures sum[i] == exact[i]
    {
      Quotient(exact[i], 0x1_0000_0000, 0, exact[i]);
    }
    assert sum == exact;
  }

  // More than 128 columns: emptied into 64-bit lanes after every row.
  method WholeWide(b: Bytes, atIn: nat, atRe: nat, width: nat, height: nat, sum0: seq<u32>, ghost exact0: seq<nat>,
                   ghost e: nat,
                   ghost rows: nat)
    returns (sum64: seq<u64>)
    requires width % 32 == 0 && height > 0 && b.Planes().Has(atIn, atRe, width, height) && |sum0| == |exact0| == 8
    requires Sound(sum0, exact0, e, 2 * PAIR_MOST * rows)
    ensures |sum64| == 4
    ensures TogetherFit(rows, width) ==> Sums(sum64, e + BlockError(b.Planes(), atIn, atRe, width, height))
  {
    hide RowError, BlockError, Offset, Planes.Has, Sound, Flushed, Sums, Total;
    ghost var p := b.Planes();
    NoRows(p, atIn, atRe, width);
    NothingSummed();
    ZeroSound();
    var sum := sum0;
    ghost var exact: seq<nat> := exact0;
    sum64 := [0, 0, 0, 0];
    var inp, rec := atIn, atRe;
    for y := 0 to height
      invariant p.Has(atIn, atRe, width, y) && inp == atIn + Offset(y, p.inputStride)
          && rec == atRe + Offset(y, p.reconStride)
      invariant |sum| == |exact| == 8 && |sum64| == 4
      invariant y == 0 ==> Sound(sum, exact, e, 2 * PAIR_MOST * rows) && Sums(sum64, 0)
      invariant y > 0 ==> Sound(sum, exact, 0, 0)
      invariant y > 0 && TogetherFit(rows, width) ==> Sums(sum64, e + BlockError(p, atIn, atRe, width, y))
    {
      NextRow(p, atIn, atRe, width, height, y);
      ghost var left, most := if y == 0 then e else 0, if y == 0 then 2 * PAIR_MOST * rows else 0;
      sum, exact := WholeRow(b, inp, rec, width, sum, exact, left, most);
      if TogetherFit(rows, width) {
        SoundIsExact(sum, exact, left + RowError(p, inp, rec, width), most + 2 * PAIR_MOST * (width / 32));
        FlushStep(sum, sum64, if y == 0 then 0 else e + BlockError(p, atIn, atRe, width, y));
      }
      sum64 := Flushed(sum, sum64);
      sum, exact := Zeros(8), Zeros(8);
      inp, rec := inp + b.inputStride, rec + b.reconStride;
    }
  }

  // ----- adding up the lanes -----

  // hadd32_sse2: four lanes folded onto the lowest, read as a signed number.
  function HaddSse2(s: seq<u32>): int
    requires |s| == 4
  {
    S32(Folded4(s))
  }

  function Hadd32(sum: seq<u32>): int
    requires |sum| == 8
  {
    HaddSse2(AddEpi32(sum[..4], sum[4..]))
  }

  // A block of four columns: lanes 0 and 1 of both halves.
  function FirstTwo(sum: seq<u32>): int
    requires |sum| == 8
  {
    var s := AddEpi32(sum[..4], sum[4..]);
    S32(AddDword(s[0], s[1]))
  }

  lemma {:induction false} TotalOfEight(a: seq<nat>)
    requires |a| == 8
    ensures Total(a) == a[0] + a[1] + a[2] + a[3] + a[4] + a[5] + a[6] + a[7]
  {
    TotalOfFour(a[..4]);
    TotalOfFour(a[4..]);
    TotalConcat(a[..4], a[4..]);
    assert a[..4] + a[4..] == a;
  }

  lemma {:induction false} HaddExact(sum: seq<u32>, exact: seq<nat>)
    requires Holds(sum, exact)
    ensures Hadd32(sum) == S32(W32(Total(exact)))
  {
    hide Total, S32, Folded4;
    var lanes: seq<nat>, m := sum, 0x1_0000_0000;
    var halves: seq<nat> := [lanes[0] + lanes[4], lanes[1] + lanes[5], lanes[2] + lanes[6], lanes[3] + lanes[7]];
    TracksTotal(sum, exact, m);
    TracksTotal(AddEpi32(sum[..4], sum[4..]), halves, m);
    TotalOfEight(sum);
    TotalOfFour(halves);
    FoldedTotal(AddEpi32(sum[..4], sum[4..]));
  }

  lemma {:induction false} TwoFolded(s: seq<u32>)
    requires |s| == 4 && s[2] == 0 && s[3] == 0
    ensures Folded4(s) == AddDword(s[0], s[1])
  {
    hide AddDword;
    WithZero(s[0]);
    WithZero(s[1]);
  }

  lemma {:induction false} WithZero(x: u32)
    ensures AddDword(x, 0) == x
  {
  }

  lemma {:induction false} FirstTwoExact(sum: seq<u32>, exact: seq<nat>)
    requires Holds(sum, exact) && exact[2] == exact[3] == exact[6] == exact[7] == 0
    ensures FirstTwo(sum) == S32(W32(Total(exact)))
  {
    hide Total, S32, Folded4;
    var s := AddEpi32(sum[..4], sum[4..]);
    assert s[2] == 0 && s[3] == 0;
    TwoFolded(s);
    HaddExact(sum, exact);
  }

  // ----- the kernel -----

  // How many columns are read where so many are left.
  function Read(leftover: nat): nat { if leftover <= 8 then leftover else if leftover <= 16 then 16 else 32 }

  method Leftover(b: Bytes, atIn: nat, atRe: nat, leftover: nat, height: nat)
    returns (sum: seq<u32>, ghost exact: seq<nat>)
    requires 0 < leftover < 32 && leftover % 4 == 0
    requires height > 0 && (leftover <= 8 ==> height % 2 == 0) && b.Planes().Has(atIn, atRe, Read(leftover), height)
    ensures b.Planes().Has(atIn, atRe, leftover, height)
    ensures Sound(sum, exact, BlockError(b.Planes(), atIn, atRe, leftover, height), 2 * PAIR_MOST * height)
    ensures |sum| == 8 && W32(Total(sum)) == W32(BlockError(b.Planes(), atIn, atRe, leftover, height))
    ensures |exact| == 8 && (leftover == 4 ==> exact[2] == exact[3] == exact[6] == exact[7] == 0)
  {
    hide BlockError, Planes.Has, AtMost, Total, W32;
    if leftover <= 8 {
      sum, exact := LeftoverNarrow(b, atIn, atRe, leftover, height);
    } else if leftover <= 16 {
      sum, exact := LeftoverMiddle(b, atIn, atRe, leftover, height);
    } else {
      sum, exact := LeftoverWide(b, atIn, atRe, leftover, height);
    }
    SoundTotal(sum, exact, BlockError(b.Planes(), atIn, atRe, leftover, height), 2 * PAIR_MOST * height);
  }

  lemma {:induction false} SumHeld(sum: seq<u32>, exact: seq<nat>, e: nat, most: nat)
    requires Sound(sum, exact, e, most)
    ensures |sum| == 8 && Hadd32(sum) == S32(W32(e))
    ensures exact[2] == exact[3] == exact[6] == exact[7] == 0 ==> FirstTwo(sum) == S32(W32(e))
  {
    hide Hadd32, FirstTwo, S32, Total;
    HaddExact(sum, exact);
    if exact[2] == exact[3] == exact[6] == exact[7] == 0 {
      FirstTwoExact(sum, exact);
    }
  }

  // What the kernel reads: the block, and the rest of its last vector when columns are left.
  ghost predicate InMemory(b: Bytes, inputOffset: nat, reconOffset: nat, width: nat, height: nat) {
    var leftover := width % 32;
    var whole := width - leftover;
    && b.Planes().Has(inputOffset, reconOffset, whole, height)
    && b.Planes().Has(inputOffset + whole, reconOffset + whole, Read(leftover), height)
    && b.Planes().Has(inputOffset, reconOffset, width, height)
  }

  // The sizes the kernel is given: it takes four columns at a time, and two rows where four or eight are left.
  predicate Shape(width: nat, height: nat) {
    width % 4 == 0 && height > 0 && (width % 32 in {4, 8} ==> height % 2 == 0)
  }

  /** Below 160 columns the sum comes back as a signed 32-bit number widened to 64 bits; from 160 on it is exact. */
  method SpatialDistortion(b: Bytes, inputOffset: nat, reconOffset: nat, width: nat, height: nat)
    returns (distortion: u64)
    requires Shape(width, height) && InMemory(b, inputOffset, reconOffset, width, height)
    ensures b.Planes().Has(inputOffset, reconOffset, width, height)
    ensures width < 160 ==> distortion == W64(S32(W32(BlockError(b.Planes(), inputOffset, reconOffset, width, height))))
    ensures width >= 160 && LanesFit(width, height) ==>
        distortion
        == W64(BlockError(b.Planes(), inputOffset, reconOffset, width, height))
  {
    hide BlockError, Planes.Has, Sound, Sums, W64, S32, W32, Total, Hadd32, FirstTwo, Together, AtMost, TogetherFit,
        RowsLeftOver;
    ghost var p := b.Planes();
    var leftover := width % 32;
    var whole := width - leftover;
    SplitColumns(p, inputOffset, reconOffset, width, whole, height);
    ZeroSound();
    WholeFits(width, height);
    ghost var rows := RowsLeftOver(width, height);
    var sum := Zeros(8);
    ghost var exact: seq<nat>, e := Zeros(8), BlockError(p, inputOffset + whole, reconOffset + whole, leftover, height);
    if leftover != 0 {
      sum, exact := Leftover(b, inputOffset + whole, reconOffset + whole, leftover, height);
      SumHeld(sum, exact, e, 2 * PAIR_MOST * rows);
      if width == 4 {
        NoWidth(p, inputOffset, reconOffset, height);
        return W64(FirstTwo(sum));
      }
    } else {
      NoWidth(p, inputOffset + whole, reconOffset + whole, height);
    }
    ghost var most := 2 * PAIR_MOST * rows;
    if whole != 0 {
      if whole <= 128 {
        sum, exact, most := WholeNarrow(b, inputOffset, reconOffset, whole, height, sum, exact, e, most);
      } else {
        var sum64 := WholeWide(b, inputOffset, reconOffset, whole, height, sum, exact, e, rows);
        if LanesFit(width, height) {
          LanesTogether(sum64, BlockError(p, inputOffset, reconOffset, width, height));
        }
        return Together(sum64);
      }
    } else {
      NoWidth(p, inputOffset, reconOffset, height);
    }
    SumHeld(sum, exact, BlockError(p, inputOffset, reconOffset, width, height), most);
    distortion := W64(Hadd32(sum));
  }

  // The signed 32-bit result is the sum exactly when the sum fits it.
  lemma {:induction false} SignedIsExact(e: nat)
    requires e < 0x8000_0000_0000_0000
    ensures W64(S32(W32(e))) == e <==> e < 0x8000_0000
  {
    if e < 0x8000_0000 {
      Quotient(e, 0x1_0000_0000, 0, e);
    } else if W32(e) >= 0x8000_0000 {
      Quotient(S32(W32(e)), 0x1_0000_0000_0000_0000, -1, S32(W32(e)) + 0x1_0000_0000_0000_0000);
    }
  }
}
