/** The smooth predictors (section 7.11.2.6 of the AV1 bitstream specification), widths 8 to 64. */
module Smooth {
  import opened Arithmetic
  import opened MachineInts
  import opened Plane
  import opened Simd
  import opened SmoothTables

  // ----- one pixel -----

  function Blend(w: nat, x: int, y: int): int { w * x + (0x100 - w) * y }

  // The rounded average of a vertical and a horizontal weighted pair.
  function SmoothPixel(wy: nat, wx: nat, above: nat, bottom: nat, left: nat, right: nat): int {
    (Blend(wy, above, bottom) + Blend(wx, left, right) + 0x100) / 0x200
  }

  predicate Pixel(x: u16) { x < 0x8000 }

  lemma {:induction false} BlendBounds(w: nat, x: int, y: int, low: int, high: int)
    requires w <= 0x100 && low <= x <= high && low <= y <= high
    ensures 0x100 * low <= Blend(w, x, y) <= 0x100 * high
  {
    MulMonotone(0, x - low, w);
    MulMonotone(0, high - x, w);
    MulMonotone(0, y - low, 0x100 - w);
    MulMonotone(0, high - y, 0x100 - w);
    assert w * (x - low) + (0x100 - w) * (y - low) == Blend(w, x, y) - 0x100 * low;
    assert w * (high - x) + (0x100 - w) * (high - y) == 0x100 * high - Blend(w, x, y);
  }

  // The prediction lies between the smallest and the largest of its four pixels.
  lemma {:induction false} SmoothBounds(wy: nat, wx: nat, above: nat, bottom: nat, left: nat, right: nat, low: nat,
                                        high: nat)
    requires wy <= 0x100 && wx <= 0x100
    requires low <= above <= high && low <= bottom <= high && low <= left <= high && low <= right <= high
    ensures low <= SmoothPixel(wy, wx, above, bottom, left, right) <= high
  {
    BlendBounds(wy, above, bottom, low, high);
    BlendBounds(wx, left, right, low, high);
    hide Blend;
  }

  // ----- the kernel -----

  // shuffle_epi8 with a pattern that repeats the two bytes pairs of 32-bit lane k of a half.
  function Repeated(half: seq<u16>, k: nat): (r: seq<u16>)
    requires |half| == 8 && k < 4
    ensures |r| == 8
  {
    seq(8, i requires 0 <= i < 8 => half[2 * k + i % 2])
  }

  function ShuffleRep(a: seq<u16>, k0: nat, k1: nat): (r: seq<u16>)
    requires |a| == 16 && k0 < 4 && k1 < 4
    ensures |r| == 16
  {
    Repeated(a[..8], k0) + Repeated(a[8..], k1)
  }

  // smooth_pred_kernel
  function Kernel(w0: seq<u16>, w1: seq<u16>, weightsH: seq<u16>, k0: nat, k1: nat, ab0: seq<u16>, ab1: seq<u16>,
                  lr: seq<u16>): (d: seq<u16>)
    requires |w0| == |w1| == |weightsH| == |ab0| == |ab1| == |lr| == 16 && k0 < 4 && k1 < 4
    ensures |d| == 16
  {
    var round := Set1(0x100, 8);
    var w, t := ShuffleRep(weightsH, k0, k1), ShuffleRep(lr, k0, k1);
    var s0, s1 := MaddEpi16(ab0, w), MaddEpi16(ab1, w);
    var sum0 := AddEpi32(AddEpi32(MaddEpi16(t, w0), s0), round);
    var sum1 := AddEpi32(AddEpi32(MaddEpi16(t, w1), s1), round);
    PacksEpi32(SraiEpi32(sum0, 9), SraiEpi32(sum1, 9))
  }

  // One lane of it: pairs of pixels and of weights.
  function KernelLane(a: u16, b: u16, wy: u16, wyc: u16, l: u16, r: u16, wx: u16, wxc: u16): u16 {
    PackDword(SraLane(AddDword(AddDword(MaddLane(l, wx, r, wxc), MaddLane(a, wy, b, wyc)), 0x100), 9))
  }

  lemma {:induction false} KernelAt(w0: seq<u16>, w1: seq<u16>, wh: seq<u16>, k0: nat, k1: nat, ab0: seq<u16>,
                                    ab1: seq<u16>, lr: seq<u16>, i: nat)
    requires |w0| == |w1| == |wh| == |ab0| == |ab1| == |lr| == 16 && k0 < 4 && k1 < 4 && i < 4
    ensures
      var d := Kernel(w0, w1, wh, k0, k1, ab0, ab1, lr);
      var wy, wyc, l, r := wh[2 * k0], wh[2 * k0 + 1], lr[2 * k0], lr[2 * k0 + 1];
      && d[i] == KernelLane(ab0[2 * i], ab0[2 * i + 1], wy, wyc, l, r, w0[2 * i], w0[2 * i + 1])
      && d[4 + i] == KernelLane(ab1[2 * i], ab1[2 * i + 1], wy, wyc, l, r, w1[2 * i], w1[2 * i + 1])
    ensures
      var d := Kernel(w0, w1, wh, k0, k1, ab0, ab1, lr);
      var wy, wyc, l, r := wh[8 + 2 * k1], wh[9 + 2 * k1], lr[8 + 2 * k1], lr[9 + 2 * k1];
      && d[8 + i] == KernelLane(ab0[8 + 2 * i], ab0[9 + 2 * i], wy, wyc, l, r, w0[8 + 2 * i], w0[9 + 2 * i])
      && d[12 + i] == KernelLane(ab1[8 + 2 * i], ab1[9 + 2 * i], wy, wyc, l, r, w1[8 + 2 * i], w1[9 + 2 * i])
  {
    hide MaddLane, AddDword, SraLane, PackDword, PacksEpi32, ShuffleRep;
    var w, t := ShuffleRep(wh, k0, k1), ShuffleRep(lr, k0, k1);
    RepeatedAt(wh, k0, k1, i);
    RepeatedAt(lr, k0, k1, i);
    var round := Set1(0x100, 8);
    var sum0 := AddEpi32(AddEpi32(MaddEpi16(t, w0), MaddEpi16(ab0, w)), round);
    var sum1 := AddEpi32(AddEpi32(MaddEpi16(t, w1), MaddEpi16(ab1, w)), round);
    PackedDwordsAt(SraiEpi32(sum0, 9), SraiEpi32(sum1, 9), i);
  }

  lemma {:induction false} RepeatedAt(a: seq<u16>, k0: nat, k1: nat, i: nat)
    requires |a| == 16 && k0 < 4 && k1 < 4 && i < 4
    ensures
      var r := ShuffleRep(a, k0, k1);
      && r[2 * i] == a[2 * k0] && r[2 * i + 1] == a[2 * k0 + 1]
      && r[8 + 2 * i] == a[8 + 2 * k1] && r[9 + 2 * i] == a[9 + 2 * k1]
  {
  }

  // Pixels below 2 to the power 15 and complementary weights: the lane is the prediction,
  // and the saturating pack changes nothing.
  lemma {:induction false} KernelLaneExact(a: u16, b: u16, wy: u16, l: u16, r: u16, wx: u16)
    requires Pixel(a) && Pixel(b) && Pixel(l) && Pixel(r) && wy <= 0x100 && wx <= 0x100
    ensures KernelLane(a, b, wy, 0x100 - wy, l, r, wx, 0x100 - wx) == SmoothPixel(wy, wx, a, b, l, r)
  {
    hide PackDword, SraLane, AddDword, MaddLane;
    MaddPair(a, b, wy);
    MaddPair(l, r, wx);
    var sum := Blend(wx, l, r) + Blend(wy, a, b) + 0x100;
    DwordsAdd(Blend(wx, l, r), Blend(wy, a, b));
    DwordsAdd(Blend(wx, l, r) + Blend(wy, a, b), 0x100);
    PackShifted(sum);
  }

  lemma {:induction false} MaddPair(x: u16, y: u16, w: u16)
    requires Pixel(x) && Pixel(y) && w <= 0x100
    ensures 0 <= Blend(w, x, y) <= 0x100 * 0x7FFF && MaddLane(x, w, y, 0x100 - w) == Blend(w, x, y)
  {
    hide PairSum, Blend, S16, W32;
    BlendBounds(w, x, y, 0, 0x7FFF);
    SmallSigned(x);
    SmallSigned(y);
    SmallSigned(w);
    SmallSigned(0x100 - w);
    PairIsBlend(x, y, w);
    Stored32(Blend(w, x, y));
  }

  lemma {:induction false} PairIsBlend(x: int, y: int, w: nat)
    ensures PairSum(x, w, y, 0x100 - w) == Blend(w, x, y)
  {
  }

  lemma {:induction false} PackShifted(v: u32)
    requires v < 0x200 * 0x8000
    ensures PackDword(SraLane(v, 9)) == v / 0x200
  {
    assert Sra(v, 9) == v / 0x200 by { SraNine(v); }
    assert S32(v) == v && S32(W32(v / 0x200)) == v / 0x200;
    SmallLanes(v / 0x200, 0);
    hide SatS16, W32, S32, Sra;
  }

  lemma {:induction false} SraNine(v: nat)
    ensures Sra(v, 9) == v / 0x200
  {
    assert Sra(v, 9) == Sra(v / 2, 8) == Sra(v / 2 / 2, 7) == Sra(v / 2 / 2 / 2, 6);
    var x := v / 8;
    assert Sra(x, 6) == Sra(x / 2, 5) == Sra(x / 2 / 2, 4) == Sra(x / 2 / 2 / 2, 3);
    var y := x / 8;
    assert Sra(y, 3) == Sra(y / 2, 2) == Sra(y / 2 / 2, 1) == y / 2 / 2 / 2;
  }

  // ----- a row -----

  // The pixels above a block and to its left.
  datatype Edges = Edges(above: seq<u16>, left: seq<u16>) {
    ghost predicate Valid(w: nat, h: nat) {
      && Size(w) && Size(h) && |above| >= w && |left| >= h
      && (forall i :: 0 <= i < |above| ==> Pixel(above[i])) && forall i :: 0 <= i < |left| ==> Pixel(left[i])
    }
  }

  function WeightOf(bs: nat, i: nat): (w: nat)
    requires Size(bs) && i < bs
    ensures w <= 0x100
  {
    WeightBounds(bs, i / 4);
    Weights(bs, i / 4)[i % 4]
  }

  function SmoothAt(e: Edges, w: nat, h: nat, r: nat, c: nat): (p: u16)
    requires e.Valid(w, h) && r < h && c < w
    ensures Pixel(p)
  {
    SmoothBounds(WeightOf(h, r), WeightOf(w, c), e.above[c], e.left[h - 1], e.left[r], e.above[w - 1], 0, 0x7FFF);
    SmoothPixel(WeightOf(h, r), WeightOf(w, c), e.above[c], e.left[h - 1], e.left[r], e.above[w - 1])
  }

  ghost function SmoothRow(e: Edges, w: nat, h: nat, r: nat): (row: seq<u16>)
    requires e.Valid(w, h) && r < h
    ensures |row| == w
  {
    seq(w, c requires 0 <= c < w => SmoothAt(e, w, h, r, c))
  }

  ghost function SmoothBlock(e: Edges, w: nat, h: nat): (rows: seq<seq<u16>>)
    requires e.Valid(w, h)
    ensures |rows| == h && IsBlock(rows, w)
  {
    seq(h, r requires 0 <= r < h => SmoothRow(e, w, h, r))
  }

  // ----- the registers of a block -----

  // load_left_8 and load_left_4: pairs of a left pixel and the right one, four rows in both halves.
  function LeftLow(l0: seq<u16>, right: u16): (lr: seq<u16>)
    requires |l0| == 8
    ensures |lr| == 16
  {
    UnpackLo256(SetM128i(l0, l0), Set1(right, 16))
  }

  function LeftHigh(l0: seq<u16>, right: u16): (lr: seq<u16>)
    requires |l0| == 8
    ensures |lr| == 16
  {
    UnpackHi256(SetM128i(l0, l0), Set1(right, 16))
  }

  // The left pixels of rows 4 * g to 4 * g + 3, with the right pixel.
  ghost predicate IsLeft(lr: seq<u16>, e: Edges, w: nat, g: nat)
    requires |lr| == 16 && 4 * g + 4 <= |e.left| && 0 < w <= |e.above|
  {
    forall k :: 0 <= k < 4 ==>
      && lr[2 * k] == lr[8 + 2 * k] == e.left[4 * g + k]
      && lr[2 * k + 1] == lr[9 + 2 * k] == e.above[w - 1]
  }

  lemma {:induction false} LeftLoaded(e: Edges, w: nat, g: nat, l0: seq<u16>)
    requires |l0| == 8 && 4 * g + 4 <= |e.left| && 0 < w <= |e.above|
    ensures l0[..4] == e.left[4 * g..4 * g + 4] ==> IsLeft(LeftLow(l0, e.above[w - 1]), e, w, g)
    ensures l0[4..] == e.left[4 * g..4 * g + 4] ==> IsLeft(LeftHigh(l0, e.above[w - 1]), e, w, g)
  {
    hide LeftLow, LeftHigh;
    LeftAt(l0, e.above[w - 1], 0);
    LeftAt(l0, e.above[w - 1], 1);
    LeftAt(l0, e.above[w - 1], 2);
    LeftAt(l0, e.above[w - 1], 3);
    SliceAt(l0, e.left, g);
  }

  lemma {:induction false} SliceAt(l0: seq<u16>, left: seq<u16>, g: nat)
    requires |l0| == 8 && 4 * g + 4 <= |left|
    ensures l0[..4] == left[4 * g..4 * g + 4] ==>
      l0[0] == left[4 * g] && l0[1] == left[4 * g + 1] && l0[2] == left[4 * g + 2] && l0[3] == left[4 * g + 3]
    ensures l0[4..] == left[4 * g..4 * g + 4] ==>
      l0[4] == left[4 * g] && l0[5] == left[4 * g + 1] && l0[6] == left[4 * g + 2] && l0[7] == left[4 * g + 3]
  {
    var slice := left[4 * g..4 * g + 4];
    assert slice[0] == left[4 * g] && slice[1] == left[4 * g + 1] && slice[2] == left[4 * g + 2]
        && slice[3] == left[4 * g + 3];
    assert l0[0] == l0[..4][0] && l0[1] == l0[..4][1] && l0[2] == l0[..4][2] && l0[3] == l0[..4][3];
    assert l0[4] == l0[4..][0] && l0[5] == l0[4..][1] && l0[6] == l0[4..][2] && l0[7] == l0[4..][3];
  }

  lemma {:induction false} LeftAt(l0: seq<u16>, right: u16, k: nat)
    requires |l0| == 8 && k < 4
    ensures
      var lo, hi := LeftLow(l0, right), LeftHigh(l0, right);
      && lo[2 * k] == lo[8 + 2 * k] == l0[k] && lo[2 * k + 1] == lo[9 + 2 * k] == right
      && hi[2 * k] == hi[8 + 2 * k] == l0[4 + k] && hi[2 * k + 1] == hi[9 + 2 * k] == right
  {
    hide UnpackLo256, UnpackHi256;
    UnpackedWordsAt(SetM128i(l0, l0), Set1(right, 16), k);
  }

  // Sixteen pixels of a row of width 16, 32 or 64: columns 16 * q on.
  function WidePiece(e: Edges, w: nat, h: nat, q: nat, g: nat, k: nat, lr: seq<u16>): (d: seq<u16>)
    requires e.Valid(w, h) && Wide(w) && 16 * q + 16 <= w && 4 * g + 4 <= h && k < 4 && |lr| == 16
    ensures |d| == 16
  {
    var a, b := Load(e.above, 16 * q, 16), Set1(e.left[h - 1], 16);
    Kernel(Columns(w, 2 * q), Columns(w, 2 * q + 1), Doubled(h, g), k, k, UnpackLo256(a, b), UnpackHi256(a, b), lr)
  }

  lemma {:induction false} RowWeights(h: nat, g: nat, k: nat)
    requires Size(h) && 4 * g < h && k < 4
    ensures
      var wh, wy := Doubled(h, g), WeightOf(h, 4 * g + k);
      wy <= 0x100 && wh[2 * k] == wh[8 + 2 * k] == wy && wh[2 * k + 1] == wh[9 + 2 * k] == 0x100 - wy
  {
    DoubledIsPairs(h, g);
    hide Weights, DoubledLine;
    assert (4 * g + k) / 4 == g && (4 * g + k) % 4 == k;
  }

  // The weights of columns 16 * q on, in the order of the kernel.
  lemma {:induction false} ColumnWeights(w: nat, q: nat, i: nat)
    requires Wide(w) && 16 * q < w && i < 4
    ensures
      var w0, w1 := Columns(w, 2 * q), Columns(w, 2 * q + 1);
      && w0[2 * i] == WeightOf(w, 16 * q + i) && w0[2 * i + 1] == 0x100 - WeightOf(w, 16 * q + i)
      && w1[2 * i] == WeightOf(w, 16 * q + 4 + i) && w1[2 * i + 1] == 0x100 - WeightOf(w, 16 * q + 4 + i)
    ensures
      var w0, w1 := Columns(w, 2 * q), Columns(w, 2 * q + 1);
      && w0[8 + 2 * i] == WeightOf(w, 16 * q + 8 + i) && w0[9 + 2 * i] == 0x100 - WeightOf(w, 16 * q + 8 + i)
      && w1[8 + 2 * i] == WeightOf(w, 16 * q + 12 + i) && w1[9 + 2 * i] == 0x100 - WeightOf(w, 16 * q + 12 + i)
  {
    hide WeightOf, ColumnLine, Shuffled;
    ShuffledAt(q);
    LineAt(w, 4 * q, i);
    LineAt(w, 4 * q + 1, i);
    LineAt(w, 4 * q + 2, i);
    LineAt(w, 4 * q + 3, i);
  }

  lemma {:induction false} ShuffledAt(q: nat)
    ensures Shuffled(4 * q) == 4 * q && Shuffled(4 * q + 1) == 4 * q + 2 && Shuffled(4 * q + 2) == 4 * q + 1
        && Shuffled(4 * q + 3) == 4 * q + 3
  {
  }

  lemma {:induction false} LineAt(w: nat, l: nat, i: nat)
    requires Wide(w) && l < w / 4 && i < 4
    ensures 4 * Shuffled(l) + i < w
    ensures
      var line, weight := ColumnLine(w, l), WeightOf(w, 4 * Shuffled(l) + i);
      line[2 * i] == weight && line[2 * i + 1] == 0x100 - weight
  {
    ColumnsArePairs(w, l);
    hide Weights, ColumnLine, Shuffled;
    assert (4 * Shuffled(l) + i) / 4 == Shuffled(l) && (4 * Shuffled(l) + i) % 4 == i;
  }

  // Sixteen lanes of the kernel are sixteen pixels of the row.
  lemma {:induction false} WidePieceAt(e: Edges, w: nat, h: nat, q: nat, g: nat, k: nat, lr: seq<u16>, i: nat)
    requires e.Valid(w, h) && Wide(w) && 16 * q + 16 <= w && 4 * g + 4 <= h && k < 4 && i < 4 && |lr| == 16
        && IsLeft(lr, e, w, g)
    ensures
      var d, r, c := WidePiece(e, w, h, q, g, k, lr), 4 * g + k, 16 * q;
      && d[i] == SmoothAt(e, w, h, r, c + i) && d[4 + i] == SmoothAt(e, w, h, r, c + 4 + i)
      && d[8 + i] == SmoothAt(e, w, h, r, c + 8 + i) && d[12 + i] == SmoothAt(e, w, h, r, c + 12 + i)
  {
    hide Kernel, KernelLane, Columns, Doubled, UnpackLo256, UnpackHi256, WeightOf, SmoothPixel;
    var a, b := Load(e.above, 16 * q, 16), Set1(e.left[h - 1], 16);
    KernelAt(Columns(w, 2 * q), Columns(w, 2 * q + 1), Doubled(h, g), k, k, UnpackLo256(a, b), UnpackHi256(a, b), lr,
             i);
    UnpackedWordsAt(a, b, i);
    RowWeights(h, g, k);
    ColumnWeights(w, q, i);
    LaneIsPixel(e, w, h, 4 * g + k, 16 * q + i);
    LaneIsPixel(e, w, h, 4 * g + k, 16 * q + 4 + i);
    LaneIsPixel(e, w, h, 4 * g + k, 16 * q + 8 + i);
    LaneIsPixel(e, w, h, 4 * g + k, 16 * q + 12 + i);
  }

  lemma {:induction false} LaneIsPixel(e: Edges, w: nat, h: nat, r: nat, c: nat)
    requires e.Valid(w, h) && r < h && c < w
    ensures KernelLane(e.above[c], e.left[h - 1], WeightOf(h, r), 0x100 - WeightOf(h, r),
                       e.left[r], e.above[w - 1], WeightOf(w, c), 0x100 - WeightOf(w, c)) == SmoothAt(e, w, h, r, c)
  {
    hide KernelLane, WeightOf, SmoothPixel;
    KernelLaneExact(e.above[c], e.left[h - 1], WeightOf(h, r), e.left[r], e.above[w - 1], WeightOf(w, c));
  }

  lemma {:induction false} WidePieceIsRow(e: Edges, w: nat, h: nat, q: nat, g: nat, k: nat, lr: seq<u16>)
    requires e.Valid(w, h) && Wide(w) && 16 * q + 16 <= w && 4 * g + 4 <= h && k < 4 && |lr| == 16
        && IsLeft(lr, e, w, g)
    ensures WidePiece(e, w, h, q, g, k, lr) == SmoothRow(e, w, h, 4 * g + k)[16 * q..16 * q + 16]
  {
    hide WidePiece, SmoothAt, IsLeft;
    var d, row := WidePiece(e, w, h, q, g, k, lr), SmoothRow(e, w, h, 4 * g + k);
    WidePieceAt(e, w, h, q, g, k, lr, 0);
    WidePieceAt(e, w, h, q, g, k, lr, 1);
    WidePieceAt(e, w, h, q, g, k, lr, 2);
    WidePieceAt(e, w, h, q, g, k, lr, 3);
    forall j | 0 <= j < 16
      ensures d[j] == row[16 * q + j]
    {
    }
  }

  // Two rows of width 8: the pixels above twice, each half with its own row.
  function NarrowPiece(e: Edges, h: nat, g: nat, t: nat, lr: seq<u16>): (d: seq<u16>)
    requires e.Valid(8, h) && 4 * g + 4 <= h && t < 2 && |lr| == 16
    ensures |d| == 16
  {
    Kernel(Columns(8, 0), Columns(8, 1), Doubled(h, g), 2 * t, 2 * t + 1, NarrowAbove(e, h, 0), NarrowAbove(e, h, 4),
           lr)
  }

  // Four pixels above, each with the bottom pixel, in both halves.
  function NarrowAbove(e: Edges, h: nat, c: nat): (ab: seq<u16>)
    requires e.Valid(8, h) && c + 4 <= 8
    ensures |ab| == 16
  {
    var a0 := LoadLow(e.above, c, 4);
    UnpackLo256(SetM128i(a0, a0), Set1(e.left[h - 1], 16))
  }

  lemma {:induction false} NarrowAboveAt(e: Edges, h: nat, c: nat, i: nat)
    requires e.Valid(8, h) && c + 4 <= 8 && i < 4
    ensures
      var ab := NarrowAbove(e, h, c);
      && ab[2 * i] == ab[8 + 2 * i] == e.above[c + i] && ab[2 * i + 1] == ab[9 + 2 * i] == e.left[h - 1]
  {
    hide UnpackLo256;
    var a0 := LoadLow(e.above, c, 4);
    UnpackedWordsAt(SetM128i(a0, a0), Set1(e.left[h - 1], 16), i);
  }

  lemma {:induction false} NarrowWeights(i: nat)
    requires i < 4
    ensures
      var w0, w1 := Columns(8, 0), Columns(8, 1);
      && w0[2 * i] == w0[8 + 2 * i] == WeightOf(8, i) && w0[2 * i + 1] == w0[9 + 2 * i] == 0x100 - WeightOf(8, i)
      && w1[2 * i] == w1[8 + 2 * i] == WeightOf(8, 4 + i) && w1[2 * i + 1] == w1[9 + 2 * i]
           == 0x100 - WeightOf(8, 4 + i)
  {
    DoubledIsPairs(8, 0);
    DoubledIsPairs(8, 1);
    hide Weights, DoubledLine;
  }

  lemma {:induction false} NarrowPieceAt(e: Edges, h: nat, g: nat, t: nat, lr: seq<u16>, i: nat)
    requires e.Valid(8, h) && 4 * g + 4 <= h && t < 2 && |lr| == 16 && IsLeft(lr, e, 8, g) && i < 4
    ensures
      var d, r := NarrowPiece(e, h, g, t, lr), 4 * g + 2 * t;
      && d[i] == SmoothAt(e, 8, h, r, i) && d[4 + i] == SmoothAt(e, 8, h, r, 4 + i)
      && d[8 + i] == SmoothAt(e, 8, h, r + 1, i) && d[12 + i] == SmoothAt(e, 8, h, r + 1, 4 + i)
  {
    hide Kernel, KernelLane, Columns, Doubled, NarrowAbove, WeightOf, SmoothPixel;
    KernelAt(Columns(8, 0), Columns(8, 1), Doubled(h, g), 2 * t, 2 * t + 1,
             NarrowAbove(e, h, 0), NarrowAbove(e, h, 4), lr, i);
    NarrowAboveAt(e, h, 0, i);
    NarrowAboveAt(e, h, 4, i);
    RowWeights(h, g, 2 * t);
    RowWeights(h, g, 2 * t + 1);
    NarrowWeights(i);
    LaneIsPixel(e, 8, h, 4 * g + 2 * t, i);
    LaneIsPixel(e, 8, h, 4 * g + 2 * t, 4 + i);
    LaneIsPixel(e, 8, h, 4 * g + 2 * t + 1, i);
    LaneIsPixel(e, 8, h, 4 * g + 2 * t + 1, 4 + i);
  }

  lemma {:induction false} NarrowPieceIsRows(e: Edges, h: nat, g: nat, t: nat, lr: seq<u16>)
    requires e.Valid(8, h) && 4 * g + 4 <= h && t < 2 && |lr| == 16 && IsLeft(lr, e, 8, g)
    ensures NarrowPiece(e, h, g, t, lr)[..8] == SmoothRow(e, 8, h, 4 * g + 2 * t)
    ensures NarrowPiece(e, h, g, t, lr)[8..] == SmoothRow(e, 8, h, 4 * g + 2 * t + 1)
  {
    hide NarrowPiece, SmoothAt, IsLeft;
    NarrowPieceAt(e, h, g, t, lr, 0);
    NarrowPieceAt(e, h, g, t, lr, 1);
    NarrowPieceAt(e, h, g, t, lr, 2);
    NarrowPieceAt(e, h, g, t, lr, 3);
  }

  // ----- the stores of a block -----

  // smooth_pred_16, smooth_pred_32, smooth_pred_64: a row in one, two or four stores.
  method StoreRow(dst: array<u16>, at: nat, e: Edges, w: nat, h: nat, g: nat, k: nat, lr: seq<u16>)
    requires e.Valid(w, h) && Wide(w) && 4 * g + 4 <= h && k < 4 && |lr| == 16 && IsLeft(lr, e, w, g)
        && at + w <= dst.Length
    modifies dst
    ensures dst[..] == Put(old(dst[..]), at, SmoothRow(e, w, h, 4 * g + k))
  {
    hide Put, SmoothRow, WidePiece, IsLeft;
    ghost var before, row := dst[..], SmoothRow(e, w, h, 4 * g + k);
    PutMore(before, at, row, 0, 0);
    for q := 0 to w / 16
      invariant dst[..] == Put(before, at, row[..16 * q])
    {
      WidePieceIsRow(e, w, h, q, g, k, lr);
      PutMore(before, at, row, 16 * q, 16);
      Store(dst, at + 16 * q, WidePiece(e, w, h, q, g, k, lr));
    }
  }

  // smooth_pred_16x4 to smooth_pred_64x4, and smooth_pred_8x4 with two rows a register.
  method StoreFourRows(dst: array<u16>, at: nat, stride: nat, e: Edges, w: nat, h: nat, g: nat, lr: seq<u16>,
                       ghost before: seq<u16>, ghost rows: seq<seq<u16>>)
    requires e.Valid(w, h) && (w == 8 || Wide(w)) && 4 * g + 4 <= h && |lr| == 16 && IsLeft(lr, e, w, g)
    requires rows == SmoothBlock(e, w, h) && at == Offset(4 * g, stride)
        && Written(dst[..], before, 0, stride, w, rows, 4 * g)
    modifies dst
    ensures Written(dst[..], before, 0, stride, w, rows, 4 * g + 4) && Offset(4 * g + 4, stride) == at + 4 * stride
  {
    hide Put, SmoothRow, IsLeft, Offset, Written, NarrowPiece;
    WrittenNext(dst[..], before, 0, stride, w, rows, 4 * g);
    if w == 8 {
      NarrowPieceIsRows(e, h, g, 0, lr);
      NarrowPieceIsRows(e, h, g, 1, lr);
      var d := NarrowPiece(e, h, g, 0, lr);
      Store(dst, at, d[..8]);
      WrittenNext(dst[..], before, 0, stride, w, rows, 4 * g + 1);
      Store(dst, at + stride, d[8..]);
      WrittenNext(dst[..], before, 0, stride, w, rows, 4 * g + 2);
      d := NarrowPiece(e, h, g, 1, lr);
      Store(dst, at + 2 * stride, d[..8]);
      WrittenNext(dst[..], before, 0, stride, w, rows, 4 * g + 3);
      Store(dst, at + 3 * stride, d[8..]);
    } else {
      StoreRow(dst, at, e, w, h, g, 0, lr);
      WrittenNext(dst[..], before, 0, stride, w, rows, 4 * g + 1);
      StoreRow(dst, at + stride, e, w, h, g, 1, lr);
      WrittenNext(dst[..], before, 0, stride, w, rows, 4 * g + 2);
      StoreRow(dst, at + 2 * stride, e, w, h, g, 2, lr);
      WrittenNext(dst[..], before, 0, stride, w, rows, 4 * g + 3);
      StoreRow(dst, at + 3 * stride, e, w, h, g, 3, lr);
    }
  }

  // smooth_pred_8x8 to smooth_pred_64x8
  method StoreEightRows(dst: array<u16>, at: nat, stride: nat, e: Edges, w: nat, h: nat, g: nat,
                        ghost before: seq<u16>, ghost rows: seq<seq<u16>>)
    requires e.Valid(w, h) && (w == 8 || Wide(w)) && 4 * g + 8 <= h
    requires rows == SmoothBlock(e, w, h) && at == Offset(4 * g, stride)
        && Written(dst[..], before, 0, stride, w, rows, 4 * g)
    modifies dst
    ensures Written(dst[..], before, 0, stride, w, rows, 4 * g + 8) && Offset(4 * g + 8, stride) == at + 8 * stride
  {
    hide SmoothBlock, IsLeft, Written, LeftLow, LeftHigh, Offset;
    var right := e.above[w - 1];
    var l0 := Load(e.left, 4 * g, 8);
    LeftLoaded(e, w, g, l0);
    LeftLoaded(e, w, g + 1, l0);
    assert l0[..4] == e.left[4 * g..4 * g + 4] && l0[4..] == e.left[4 * g + 4..4 * g + 8];
    StoreFourRows(dst, at, stride, e, w, h, g, LeftLow(l0, right), before, rows);
    StoreFourRows(dst, at + 4 * stride, stride, e, w, h, g + 1, LeftHigh(l0, right), before, rows);
  }

  // svt_aom_highbd_smooth_predictor_8x4_avx2 to svt_aom_highbd_smooth_predictor_64x64_avx2
  method Predict(dst: array<u16>, stride: nat, e: Edges, w: nat, h: nat)
    requires e.Valid(w, h) && (w == 8 || Wide(w)) && Fits(dst.Length, 0, stride, w, h)
    modifies dst
    ensures dst[..] == PutRows(old(dst[..]), 0, stride, w, SmoothBlock(e, w, h))
  {
    hide PutRows, SmoothBlock, IsLeft, Written, LeftLow, Offset;
    ghost var before, rows := dst[..], SmoothBlock(e, w, h);
    WrittenNone(before, 0, stride, w, rows);
    if h == 4 {
      var l0 := LoadLow(e.left, 0, 4);
      LeftLoaded(e, w, 0, l0);
      assert l0[..4] == e.left[0..4];
      StoreFourRows(dst, 0, stride, e, w, h, 0, LeftLow(l0, e.above[w - 1]), before, rows);
    } else {
      var at := 0;
      for i := 0 to h / 8
        invariant at == Offset(8 * i, stride) && Written(dst[..], before, 0, stride, w, rows, 8 * i)
      {
        StoreEightRows(dst, at, stride, e, w, h, 2 * i, before, rows);
        at := at + 8 * stride;
      }
    }
    WrittenAll(dst[..], before, 0, stride, w, rows);
  }

  // Every pixel of the block: the rounded average of section 7.11.2.6, between its four pixels.
  lemma {:induction false} PredictAt(before: seq<u16>, stride: nat, e: Edges, w: nat, h: nat, r: nat, c: nat)
    requires e.Valid(w, h) && Fits(|before|, 0, stride, w, h) && r < h && c < w
    ensures Offset(r, stride) + c < |before|
    ensures
      var p := PutRows(before, 0, stride, w, SmoothBlock(e, w, h))[Offset(r, stride) + c];
      var wy, wx, a, b, l, q := WeightOf(h, r), WeightOf(w, c), e.above[c], e.left[h - 1], e.left[r], e.above[w - 1];
      && p == (wy * a + (0x100 - wy) * b + (wx * l + (0x100 - wx) * q) + 0x100) / 0x200
      && Min(Min(a, b), Min(l, q)) <= p <= Max(Max(a, b), Max(l, q))
  {
    PutRowsAt(before, 0, stride, w, SmoothBlock(e, w, h), r, c);
    var a, b, l, q := e.above[c], e.left[h - 1], e.left[r], e.above[w - 1];
    SmoothBounds(WeightOf(h, r), WeightOf(w, c), a, b, l, q, Min(Min(a, b), Min(l, q)), Max(Max(a, b), Max(l, q)));
    hide Offset, PutRows, Fits, WeightOf;
  }
}
