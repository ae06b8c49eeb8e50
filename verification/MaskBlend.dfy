/** Blending two blocks of bytes under a mask with weights up to 64, in four mask subsampling modes. */
module MaskBlend {
  import opened Arithmetic
  import opened MachineInts
  import opened MaskWeights
  import opened Plane
  import opened Simd

  const ROUND_BITS := 6

  // ----- one pixel -----

  // The rounded average of two pixels with weights m and 64 - m.
  function Blended(m: u8, x: u8, y: u8): u8
    requires m <= MAX_ALPHA
  {
    BlendBounds(m, x, y);
    (m * x + (MAX_ALPHA - m) * y + 32) / 64
  }

  // It lies between the two.
  lemma {:induction false} BlendBounds(m: u8, x: u8, y: u8)
    requires m <= MAX_ALPHA
    ensures m * x + (MAX_ALPHA - m) * y <= 64 * 0xFF
    ensures Min(x, y) <= (m * x + (MAX_ALPHA - m) * y + 32) / 64 <= Max(x, y)
  {
    var low, high := Min(x, y), Max(x, y);
    Scaled(m, x, low, high);
    Scaled(MAX_ALPHA - m, y, low, high);
    assert m * low + (MAX_ALPHA - m) * low == 64 * low;
    assert m * high + (MAX_ALPHA - m) * high == 64 * high;
  }

  lemma {:induction false} Scaled(m: nat, x: int, low: int, high: int)
    requires low <= x <= high
    ensures m * low <= m * x <= m * high
  {
    assert m * (x - low) >= 0 && m * (high - x) >= 0;
  }

  // The weighted sum in a lane: no multiply-add saturates.
  lemma {:induction false} SumLane(m: u8, x: u8, y: u8)
    requires m <= MAX_ALPHA
    ensures MaddubsLane(x, m, y, SubByte(MAX_ALPHA, m)) == m * x + (MAX_ALPHA - m) * y
  {
    hide SatS16, SubByte, PairSum, S8;
    SmallByte(m);
    SumOf(m, x, y);
    SmallLanes(PairSum(x, m, y, MAX_ALPHA - m), 0);
  }

  lemma {:induction false} SumOf(m: u8, x: u8, y: u8)
    requires m <= MAX_ALPHA
    ensures PairSum(x, m, y, MAX_ALPHA - m) == m * x + (MAX_ALPHA - m) * y <= 64 * 0xFF
    ensures PairSum(x, m, y, MAX_ALPHA - m) >= 0
  {
    BlendBounds(m, x, y);
  }

  lemma {:induction false} SmallByte(m: u8)
    requires m <= MAX_ALPHA
    ensures SubByte(MAX_ALPHA, m) == MAX_ALPHA - m && S8(m) == m && S8(MAX_ALPHA - m) == MAX_ALPHA - m
  {
  }

  // Rounding by averages.
  lemma {:induction false} RoundLane(v: u16)
    ensures AvgWord(ShiftLane(v, 1), 0) == (v + 2) / 4
    ensures AvgWord(ShiftLane(v, 5), 0) == (v + 32) / 64
  {
    assert Down(v, 1) == Down(v / 2, 0) == v / 2;
    assert Down(v, 5) == Down(v / 2, 4) == Down(v / 2 / 2, 3) == Down(v / 2 / 2 / 2, 2) == Down(v / 2 / 2 / 2 / 2, 1)
        == v / 2 / 2 / 2 / 2 / 2;
  }

  // Rounding by a multiplication with 2 to the power 15 - 6.
  lemma {:induction false} MulhrsRounds(v: u16)
    requires v <= 64 * 0xFF
    ensures MulhrsLane(v, 512) == (v + 32) / 64
  {
    Times512(v);
    hide W16, S16, RoundedHigh;
    SmallLanes(v, 0);
    SmallLanes(512, 0);
    SmallLanes(RoundedHigh(v, 512), 0);
  }

  lemma {:induction false} Times512(v: u16)
    ensures RoundedHigh(v, 512) == (v + 32) / 64 && 0 <= RoundedHigh(v, 512) <= 0x401
  {
    Quotient(v * 512, 0x4000, v / 32, v % 32 * 512);
  }

  lemma {:induction false} PixelLane(m: u8, x: u8, y: u8)
    requires m <= MAX_ALPHA
    ensures
      var sum := MaddubsLane(x, m, y, SubByte(MAX_ALPHA, m));
      PackLane(AvgWord(ShiftLane(sum, 5), 0)) == Blended(m, x, y) == PackLane(MulhrsLane(sum, 512))
  {
    hide MaddubsLane, ShiftLane, MulhrsLane, AvgWord, PackLane;
    SumLane(m, x, y);
    BlendBounds(m, x, y);
    var sum := m * x + (MAX_ALPHA - m) * y;
    RoundLane(sum);
    MulhrsRounds(sum);
    SmallLanes((sum + 32) / 64, 0);
  }

  // ----- the weights of a row -----

  // Whether one weight stands for two columns, or two rows, of the mask.
  datatype Subsampling = Subsampling(x: bool, y: bool) {
    // The mask entries that stand for n pixels of a row.
    function Span(n: nat): nat { if x then 2 * n else n }
  }

  // A weight of a row: the properly rounded average of one, two or four mask entries.
  function WeightAt(sub: Subsampling, top: seq<u8>, bottom: seq<u8>, c: nat): u8
    requires |top| == |bottom| && sub.Span(c + 1) <= |top|
  {
    if sub.x && sub.y then Quarter4(top[2 * c], top[2 * c + 1], bottom[2 * c], bottom[2 * c + 1])
    else if sub.x then AvgByte(top[2 * c], top[2 * c + 1])
    else if sub.y then AvgByte(top[c], bottom[c])
    else top[c]
  }

  function Quarter4(a: u8, b: u8, c: u8, d: u8): u8 { (a + b + c + d + 2) / 4 }

  ghost function Weights(sub: Subsampling, top: seq<u8>, bottom: seq<u8>, width: nat): (m: seq<u8>)
    requires |top| == |bottom| && sub.Span(width) <= |top|
    ensures |m| == width
  {
    seq(width, c requires 0 <= c < width => WeightAt(sub, top, bottom, c))
  }

  lemma {:induction false} WeightsAreMask(sub: Subsampling, top: seq<u8>, bottom: seq<u8>, width: nat)
    requires |top| == |bottom| && sub.Span(width) <= |top| && IsMask(top) && IsMask(bottom)
    ensures IsMask(Weights(sub, top, bottom, width))
  {
  }

  // ----- the weights in registers -----

  const EVENS_ODDS: seq<nat> := [0, 2, 4, 6, 8, 10, 12, 14, 1, 3, 5, 7, 9, 11, 13, 15]

  // Sums of four mask entries, column pairs of two rows: byte sums, then even and odd bytes added as words.
  function QuadSums(top: seq<u8>, bottom: seq<u8>): (r: seq<u16>)
    requires |top| == |bottom| == 32
    ensures |r| == 16
  {
    var sums := AddEpi8(top, bottom);
    AddEpi16(AndFF(AsWords(sums)), AndFF(AsWords(SrliSi256(sums, 1))))
  }

  // Eight weights in the low half of a 128-bit register (widths 4 and 8).
  function Weights8(sub: Subsampling, top: seq<u8>, bottom: seq<u8>): (m: seq<u8>)
    requires |top| == |bottom| == 16
    ensures |m| == 16
  {
    if sub.x && sub.y then
      var sorted := ShuffleEpi8(AddEpi8(top, bottom), EVENS_ODDS);
      var m0 := RoundnEpu16(AddEpi16(CvtEpu8Epi16(sorted), CvtEpu8Epi16(SrliSi128(sorted, 8))), 2);
      PackusEpi16Half(m0, m0)
    else if sub.x then
      var sorted := ShuffleEpi8(top, EVENS_ODDS);
      AvgEpu8(UnpackLoEpi64(sorted, sorted), UnpackHiEpi64(sorted, sorted))
    else if sub.y then AvgEpu8(top, bottom)
    else top
  }

  // Sixteen weights, eight in the low quarter of each half, from 32 mask bytes (width 16, columns subsampled).
  function Weights16(sub: Subsampling, top: seq<u8>, bottom: seq<u8>): (m: seq<u8>)
    requires |top| == |bottom| == 32
    ensures |m| == 32
  {
    if sub.y then
      var m0 := RoundnEpu16(QuadSums(top, bottom), 2);
      PackusEpi16(m0, m0)
    else
      var averages := AvgEpu8(top, SrliSi256(top, 1));
      PackusEpi16(AndFF(AsWords(averages)), Set1(0, 16))
  }

  // Thirty-two weights in order.
  function Weights32(sub: Subsampling, top: seq<u8>, bottom: seq<u8>): (m: seq<u8>)
    requires |top| == |bottom| == if sub.x then 64 else 32
    ensures |m| == 32
  {
    if sub.x && sub.y then
      var low := RoundnEpu16(QuadSums(top[..32], bottom[..32]), 2);
      var high := RoundnEpu16(QuadSums(top[32..], bottom[32..]), 2);
      Permute4x64(PackusEpi16(low, high), 0, 2, 1, 3)
    else if sub.x then
      var r0, r1 := ShuffleEpi8Halves(top[..32], EVENS_ODDS), ShuffleEpi8Halves(top[32..], EVENS_ODDS);
      var al, ah := AvgEpu8(r0, SrliSi256(r0, 8)), AvgEpu8(r1, SrliSi256(r1, 8));
      Permute4x64(UnpackLoEpi64Halves(al, ah), 0, 2, 1, 3)
    else if sub.y then AvgEpu8(top, bottom)
    else top
  }

  // Four entries of at most 64: no byte sum wraps and the average is exact.
  lemma {:induction false} QuadLane(a: u8, b: u8, c: u8, d: u8)
    requires a <= MAX_ALPHA && b <= MAX_ALPHA && c <= MAX_ALPHA && d <= MAX_ALPHA
    ensures
      var sum := AddWord(AddByte(a, c), AddByte(b, d));
      AvgWord(ShiftLane(sum, 1), 0) == Quarter4(a, b, c, d)
          && PackLane(Quarter4(a, b, c, d)) == Quarter4(a, b, c, d) <= MAX_ALPHA
  {
    hide AddByte, AddWord, ShiftLane, AvgWord, PackLane;
    SmallSums(a, c);
    SmallSums(b, d);
    SmallSums(a + c, b + d);
    RoundLane(a + b + c + d);
    SmallLanes(Quarter4(a, b, c, d), 0);
  }

  lemma {:induction false} QuadSumsAt(top: seq<u8>, bottom: seq<u8>, i: nat)
    requires |top| == |bottom| == 32 && i < 16
    ensures QuadSums(top, bottom)[i] == AddWord(AddByte(top[2 * i], bottom[2 * i]),
                                                AddByte(top[2 * i + 1], bottom[2 * i + 1]))
  {
    hide AddByte, AddWord, LowHalf, Word;
    var sums := AddEpi8(top, bottom);
    EvenBytes(sums, i);
    OddBytes(sums, i);
  }

  lemma {:induction false} EvenBytes(b: seq<u8>, i: nat)
    requires |b| == 32 && i < 16
    ensures AndFF(AsWords(b))[i] == b[2 * i]
  {
    hide LowHalf, Word;
    LowOfWord(b[2 * i], b[2 * i + 1]);
  }

  lemma {:induction false} OddBytes(b: seq<u8>, i: nat)
    requires |b| == 32 && i < 16
    ensures AndFF(AsWords(SrliSi256(b, 1)))[i] == b[2 * i + 1]
  {
    hide LowHalf, Word;
    EvenBytes(SrliSi256(b, 1), i);
  }

  // The rounded average of sixteen column pairs of two rows.
  lemma {:induction false} QuadAt(top: seq<u8>, bottom: seq<u8>, i: nat)
    requires |top| == |bottom| == 32 && i < 16 && IsMask(top) && IsMask(bottom)
    ensures
      var weight := Quarter4(top[2 * i], top[2 * i + 1], bottom[2 * i], bottom[2 * i + 1]);
      RoundnEpu16(QuadSums(top, bottom), 2)[i] == weight == PackLane(weight)
  {
    hide AddByte, AddWord, AvgWord, ShiftLane, Quarter4, PackLane, QuadSums;
    QuadSumsAt(top, bottom, i);
    QuadLane(top[2 * i], top[2 * i + 1], bottom[2 * i], bottom[2 * i + 1]);
  }

  lemma {:induction false} QuadWeights32(top: seq<u8>, bottom: seq<u8>, i: nat)
    requires |top| == |bottom| == 64 && i < 32 && IsMask(top) && IsMask(bottom)
    ensures Weights32(Subsampling(true, true), top, bottom)[i]
         == Quarter4(top[2 * i], top[2 * i + 1], bottom[2 * i], bottom[2 * i + 1])
  {
    hide RoundnEpu16, QuadSums, PackLane, Quarter4, PackusEpi16, Permute4x64;
    PackInOrder(RoundnEpu16(QuadSums(top[..32], bottom[..32]), 2), RoundnEpu16(QuadSums(top[32..], bottom[32..]), 2));
    if i < 16 {
      QuadAt(top[..32], bottom[..32], i);
    } else {
      QuadAt(top[32..], bottom[32..], i - 16);
    }
  }

  // Evens and odds of each half, averaged.
  lemma {:induction false} SortedAverages(b: seq<u8>, i: nat)
    requires |b| == 32 && i < 8
    ensures
      var sorted := ShuffleEpi8Halves(b, EVENS_ODDS);
      var a := AvgEpu8(sorted, SrliSi256(sorted, 8));
      a[i] == AvgByte(b[2 * i], b[2 * i + 1]) && a[16 + i] == AvgByte(b[16 + 2 * i], b[16 + 2 * i + 1])
  {
    hide AvgByte;
  }

  lemma {:induction false} PairWeights32(top: seq<u8>, bottom: seq<u8>, i: nat)
    requires |top| == |bottom| == 64 && i < 32
    ensures Weights32(Subsampling(true, false), top, bottom)[i] == AvgByte(top[2 * i], top[2 * i + 1])
  {
    hide AvgByte, ShuffleEpi8Halves, AvgEpu8, SrliSi256, Permute4x64, UnpackLoEpi64Halves;
    var r0, r1 := ShuffleEpi8Halves(top[..32], EVENS_ODDS), ShuffleEpi8Halves(top[32..], EVENS_ODDS);
    var al, ah := AvgEpu8(r0, SrliSi256(r0, 8)), AvgEpu8(r1, SrliSi256(r1, 8));
    LowQuartersInOrder(al, ah);
    if i < 8 {
      SortedAverages(top[..32], i);
    } else if i < 16 {
      SortedAverages(top[..32], i - 8);
    } else if i < 24 {
      SortedAverages(top[32..], i - 16);
    } else {
      SortedAverages(top[32..], i - 24);
    }
  }

  lemma {:induction false} Weights32At(sub: Subsampling, top: seq<u8>, bottom: seq<u8>, i: nat)
    requires |top| == |bottom| == (if sub.x then 64 else 32) && i < 32 && IsMask(top) && IsMask(bottom)
    ensures Weights32(sub, top, bottom)[i] == WeightAt(sub, top, bottom, i)
  {
    if sub.x && sub.y {
      QuadWeights32(top, bottom, i);
    } else if sub.x {
      PairWeights32(top, bottom, i);
    }
    hide AvgByte, Quarter4, QuadSums, RoundnEpu16, PackusEpi16, Permute4x64;
  }

  lemma {:induction false} AvgBounds(a: u8, b: u8)
    requires a <= MAX_ALPHA && b <= MAX_ALPHA
    ensures AvgByte(a, b) <= MAX_ALPHA && PackLane(AvgByte(a, b)) == AvgByte(a, b)
  {
    SmallLanes(AvgByte(a, b), 0);
  }

  lemma {:induction false} Weights16At(sub: Subsampling, top: seq<u8>, bottom: seq<u8>, i: nat)
    requires sub.x && |top| == |bottom| == 32 && i < 16 && IsMask(top) && IsMask(bottom)
    ensures Weights16(sub, top, bottom)[if i < 8 then i else i + 8] == WeightAt(sub, top, bottom, i)
  {
    hide AvgByte, Quarter4, QuadSums, RoundnEpu16, PackLane, PackusEpi16;
    if sub.y {
      QuadAt(top, bottom, i);
      PackedPlaces(RoundnEpu16(QuadSums(top, bottom), 2), RoundnEpu16(QuadSums(top, bottom), 2), i);
    } else {
      var averages := AvgEpu8(top, SrliSi256(top, 1));
      EvenBytes(averages, i);
      AvgBounds(top[2 * i], top[2 * i + 1]);
      PackedPlaces(AndFF(AsWords(averages)), Set1(0, 16), i);
      hide AndFF, AsWords;
      assert averages[2 * i] == AvgByte(top[2 * i], top[2 * i + 1]);
    }
  }

  lemma {:induction false} PackedPlaces(a: seq<u16>, b: seq<u16>, i: nat)
    requires |a| == |b| == 16 && i < 16
    ensures PackusEpi16(a, b)[if i < 8 then i else i + 8] == PackLane(a[i])
  {
    hide PackLane;
  }

  lemma {:induction false} Weights8At(sub: Subsampling, top: seq<u8>, bottom: seq<u8>, i: nat)
    requires |top| == |bottom| == 16 && i < 8 && IsMask(top) && IsMask(bottom)
    ensures Weights8(sub, top, bottom)[i] == WeightAt(sub, top, bottom, i)
  {
    hide AvgByte, AvgWord, AddWord, AddByte, ShiftLane, Quarter4, PackLane;
    if sub.x && sub.y {
      QuadLane(top[2 * i], top[2 * i + 1], bottom[2 * i], bottom[2 * i + 1]);
    }
  }

  // ----- the blend in registers -----

  function Complement(m: seq<u8>): (n: seq<u8>)
    ensures |n| == |m|
  {
    SubEpi8(Set1(MAX_ALPHA, |m|), m)
  }

  // blend_16_u8_avx2: sixteen pixels, the casts leaving the high halves undefined.
  function Blend16(src0: seq<u8>, src1: seq<u8>, m0: seq<u8>, m1: seq<u8>, junk0: seq<u8>, junk1: seq<u8>): (r: seq<u8>)
    requires |src0| == |src1| == |junk0| == |junk1| == 16 && |m0| == |m1| == 32
    ensures |r| == 32
  {
    var s0 := Permute4x64(Cast128To256(src0, junk0), 0, 2, 1, 3);
    var s1 := Permute4x64(Cast128To256(src1, junk1), 0, 2, 1, 3);
    var p0 := MaddubsEpi16(UnpackLo256(s0, s1), UnpackLo256(m0, m1));
    var res := RoundnEpu16(p0, ROUND_BITS);
    Permute4x64(PackusEpi16(res, res), 0, 2, 1, 3)
  }

  // blend_32_u8_avx2
  function Blend32(src0: seq<u8>, src1: seq<u8>, m0: seq<u8>, m1: seq<u8>): (r: seq<u8>)
    requires |src0| == |src1| == |m0| == |m1| == 32
    ensures |r| == 32
  {
    var p0 := MaddubsEpi16(UnpackLo256(src0, src1), UnpackLo256(m0, m1));
    var p1 := MaddubsEpi16(UnpackHi256(src0, src1), UnpackHi256(m0, m1));
    PackusEpi16(RoundnEpu16(p0, ROUND_BITS), RoundnEpu16(p1, ROUND_BITS))
  }

  // blend_16_u8, with rounding by multiplication
  function BlendHalves(src0: seq<u8>, src1: seq<u8>, m0: seq<u8>, m1: seq<u8>): (r: seq<u8>)
    requires |src0| == |src1| == |m0| == |m1| == 16
    ensures |r| == 16
  {
    var rounding := Set1(512, 8);
    var p0 := MaddubsEpi16(UnpackLo(src0, src1), UnpackLo(m0, m1));
    var p1 := MaddubsEpi16(UnpackHi(src0, src1), UnpackHi(m0, m1));
    PackusEpi16Half(MulhrsEpi16(p0, rounding), MulhrsEpi16(p1, rounding))
  }

  // blend_8_u8 and blend_4_u8: the low eight pixels of 128-bit registers.
  function BlendLow(src0: seq<u8>, src1: seq<u8>, m0: seq<u8>, m1: seq<u8>): (r: seq<u8>)
    requires |src0| == |src1| == |m0| == |m1| == 16
    ensures |r| == 16
  {
    var p0 := MaddubsEpi16(UnpackLo(src0, src1), UnpackLo(m0, m1));
    var res := MulhrsEpi16(p0, Set1(512, 8));
    PackusEpi16Half(res, res)
  }

  // One pixel through the lanes, with either rounding.
  function LaneRounded(m: u8, n: u8, x: u8, y: u8): u8 { PackLane(AvgWord(ShiftLane(MaddubsLane(x, m, y, n), 5), 0)) }

  function LaneScaled(m: u8, n: u8, x: u8, y: u8): u8 { PackLane(MulhrsLane(MaddubsLane(x, m, y, n), 512)) }

  lemma {:induction false} MaddubsHalves(src0: seq<u8>, src1: seq<u8>, m0: seq<u8>, m1: seq<u8>, i: nat)
    requires |src0| == |src1| == |m0| == |m1| == 32 && i < 8
    ensures
      var lo := MaddubsEpi16(UnpackLo256(src0, src1), UnpackLo256(m0, m1));
      var hi := MaddubsEpi16(UnpackHi256(src0, src1), UnpackHi256(m0, m1));
      && lo[i] == MaddubsLane(src0[i], m0[i], src1[i], m1[i])
      && lo[8 + i] == MaddubsLane(src0[16 + i], m0[16 + i], src1[16 + i], m1[16 + i])
      && hi[i] == MaddubsLane(src0[8 + i], m0[8 + i], src1[8 + i], m1[8 + i])
      && hi[8 + i] == MaddubsLane(src0[24 + i], m0[24 + i], src1[24 + i], m1[24 + i])
  {
    hide MaddubsLane, UnpackLo256, UnpackHi256;
    UnpackedAt(src0, src1, i);
    UnpackedAt(m0, m1, i);
  }

  lemma {:induction false} Blend32At(src0: seq<u8>, src1: seq<u8>, m0: seq<u8>, m1: seq<u8>, i: nat)
    requires |src0| == |src1| == |m0| == |m1| == 32 && i < 32
    ensures Blend32(src0, src1, m0, m1)[i] == LaneRounded(m0[i], m1[i], src0[i], src1[i])
  {
    hide MaddubsLane, MaddubsEpi16, UnpackLo256, UnpackHi256, PackLane, AvgWord, ShiftLane;
    MaddubsHalves(src0, src1, m0, m1, i % 8);
  }

  lemma {:induction false} Blend16At(src0: seq<u8>, src1: seq<u8>, m0: seq<u8>, m1: seq<u8>, junk0: seq<u8>,
                                     junk1: seq<u8>, i: nat)
    requires |src0| == |src1| == |junk0| == |junk1| == 16 && |m0| == |m1| == 32 && i < 16
    ensures var j := if i < 8 then i else i + 8;
        Blend16(src0, src1, m0, m1, junk0, junk1)[i]
        == LaneRounded(m0[j], m1[j], src0[i], src1[i])
  {
    hide MaddubsLane, MaddubsEpi16, UnpackLo256, PackLane, AvgWord, ShiftLane, Permute4x64, PackusEpi16;
    var s0 := Permute4x64(Cast128To256(src0, junk0), 0, 2, 1, 3);
    var s1 := Permute4x64(Cast128To256(src1, junk1), 0, 2, 1, 3);
    MaddubsHalves(s0, s1, m0, m1, i % 8);
    SpreadLow(src0, junk0, i % 8);
    SpreadLow(src1, junk1, i % 8);
    var res := RoundnEpu16(MaddubsEpi16(UnpackLo256(s0, s1), UnpackLo256(m0, m1)), ROUND_BITS);
    PackInOrder(res, res);
  }

  lemma {:induction false} BlendHalvesAt(src0: seq<u8>, src1: seq<u8>, m0: seq<u8>, m1: seq<u8>, i: nat)
    requires |src0| == |src1| == |m0| == |m1| == 16 && i < 16
    ensures BlendHalves(src0, src1, m0, m1)[i] == LaneScaled(m0[i], m1[i], src0[i], src1[i])
    ensures i < 8 ==> BlendLow(src0, src1, m0, m1)[i] == LaneScaled(m0[i], m1[i], src0[i], src1[i])
  {
    hide MaddubsLane, PackLane, MulhrsLane;
  }

  // ----- a row -----

  ghost function BlendRow(m: seq<u8>, x: seq<u8>, y: seq<u8>): (r: seq<u8>)
    requires |m| == |x| == |y| && IsMask(m)
    ensures |r| == |m|
  {
    seq(|m|, c requires 0 <= c < |m| => Blended(m[c], x[c], y[c]))
  }

  lemma {:induction false} LanesBlend(m: u8, x: u8, y: u8)
    requires m <= MAX_ALPHA
    ensures LaneRounded(m, SubByte(MAX_ALPHA, m), x, y) == Blended(m, x, y)
        == LaneScaled(m, SubByte(MAX_ALPHA, m), x, y)
  {
    PixelLane(m, x, y);
    hide MaddubsLane, ShiftLane, MulhrsLane, AvgWord, PackLane, SubByte, Blended;
  }

  lemma {:induction false} Row32(sub: Subsampling, top: seq<u8>, bottom: seq<u8>, x: seq<u8>, y: seq<u8>)
    requires |top| == |bottom| == sub.Span(32) && |x| == |y| == 32 && IsMask(top) && IsMask(bottom)
    ensures IsMask(Weights(sub, top, bottom, 32))
    ensures var m := Weights32(sub, top, bottom);
        Blend32(x, y, m, Complement(m))
        == BlendRow(Weights(sub, top, bottom, 32), x, y)
  {
    WeightsAreMask(sub, top, bottom, 32);
    hide Weights32, Blend32, Blended, WeightAt, Complement, IsMask;
    var m := Weights32(sub, top, bottom);
    forall i | 0 <= i < 32
      ensures Blend32(x, y, m, Complement(m))[i] == BlendRow(Weights(sub, top, bottom, 32), x, y)[i]
    {
      Row32At(sub, top, bottom, x, y, i);
    }
  }

  lemma {:induction false} Row32At(sub: Subsampling, top: seq<u8>, bottom: seq<u8>, x: seq<u8>, y: seq<u8>, i: nat)
    requires |top| == |bottom| == sub.Span(32) && |x| == |y| == 32 && IsMask(top) && IsMask(bottom) && i < 32
    ensures WeightAt(sub, top, bottom, i) <= MAX_ALPHA
    ensures var m := Weights32(sub, top, bottom);
        Blend32(x, y, m, Complement(m))[i]
        == Blended(WeightAt(sub, top, bottom, i), x[i], y[i])
  {
    WeightBounds(sub, top, bottom, i);
    hide Weights32, Blend32, LaneRounded, Blended, WeightAt, SubByte;
    var m := Weights32(sub, top, bottom);
    Weights32At(sub, top, bottom, i);
    Blend32At(x, y, m, Complement(m), i);
    LanesBlend(m[i], x[i], y[i]);
  }

  lemma {:induction false} WeightBounds(sub: Subsampling, top: seq<u8>, bottom: seq<u8>, c: nat)
    requires |top| == |bottom| && sub.Span(c + 1) <= |top| && IsMask(top) && IsMask(bottom)
    ensures WeightAt(sub, top, bottom, c) <= MAX_ALPHA
  {
  }

  // Width 16 with columns subsampled: whatever the casts leave in the high halves.
  lemma {:induction false} Row16(sub: Subsampling, top: seq<u8>, bottom: seq<u8>, x: seq<u8>, y: seq<u8>,
                                 junk0: seq<u8>, junk1: seq<u8>)
    requires sub.x && |top| == |bottom| == 32 && |x| == |y| == |junk0| == |junk1| == 16 && IsMask(top) && IsMask(bottom)
    ensures IsMask(Weights(sub, top, bottom, 16))
    ensures
      var m := Weights16(sub, top, bottom);
      Blend16(x, y, m, Complement(m), junk0, junk1)[..16] == BlendRow(Weights(sub, top, bottom, 16), x, y)
  {
    WeightsAreMask(sub, top, bottom, 16);
    hide Weights16, Blend16, Blended, WeightAt, Complement, IsMask;
    var m := Weights16(sub, top, bottom);
    forall i | 0 <= i < 16
      ensures Blend16(x, y, m, Complement(m), junk0, junk1)[i] == BlendRow(Weights(sub, top, bottom, 16), x, y)[i]
    {
      Row16At(sub, top, bottom, x, y, junk0, junk1, i);
    }
  }

  lemma {:induction false} Row16At(sub: Subsampling, top: seq<u8>, bottom: seq<u8>, x: seq<u8>, y: seq<u8>,
                                   junk0: seq<u8>, junk1: seq<u8>, i: nat)
    requires sub.x && |top| == |bottom| == 32 && |x| == |y| == |junk0| == |junk1| == 16 && IsMask(top)
        && IsMask(bottom) && i < 16
    ensures WeightAt(sub, top, bottom, i) <= MAX_ALPHA
    ensures
      var m := Weights16(sub, top, bottom);
      Blend16(x, y, m, Complement(m), junk0, junk1)[i] == Blended(WeightAt(sub, top, bottom, i), x[i], y[i])
  {
    WeightBounds(sub, top, bottom, i);
    hide Weights16, Blend16, LaneRounded, Blended, WeightAt, SubByte;
    var m, j := Weights16(sub, top, bottom), if i < 8 then i else i + 8;
    Weights16At(sub, top, bottom, i);
    Blend16At(x, y, m, Complement(m), junk0, junk1, i);
    LanesBlend(m[j], x[i], y[i]);
  }

  // The weights of width 16 with columns not subsampled.
  function WeightsPlain(sub: Subsampling, top: seq<u8>, bottom: seq<u8>): (m: seq<u8>)
    requires |top| == |bottom| == 16 && !sub.x
    ensures |m| == 16
  {
    if sub.y then AvgEpu8(top, bottom) else top
  }

  // The complement taken on words: no borrow crosses a byte.
  function ComplementOfWords(m: seq<u8>): (n: seq<u8>)
    requires |m| == 16
    ensures |n| == 16
  {
    AsBytes(SubEpi16(AsWords(Set1(MAX_ALPHA, 16)), AsWords(m)))
  }

  lemma {:induction false} NoBorrow(low: u8, high: u8)
    requires low <= MAX_ALPHA && high <= MAX_ALPHA
    ensures
      var w := SubLane(Word(MAX_ALPHA, MAX_ALPHA), Word(low, high));
      LowHalf(w) == SubByte(MAX_ALPHA, low) && HighHalf(w) == SubByte(MAX_ALPHA, high)
  {
    SmallLanes(Word(MAX_ALPHA, MAX_ALPHA), Word(low, high));
    SmallByte(low);
    SmallByte(high);
    hide SubLane, SubByte;
  }

  lemma {:induction false} ComplementsAgree(m: seq<u8>)
    requires |m| == 16 && IsMask(m)
    ensures ComplementOfWords(m) == Complement(m)
  {
    hide Word, LowHalf, HighHalf, SubLane, SubByte;
    forall i | 0 <= i < 16
      ensures ComplementOfWords(m)[i] == Complement(m)[i]
    {
      NoBorrow(m[i / 2 * 2], m[i / 2 * 2 + 1]);
    }
  }

  lemma {:induction false} RowPlain(sub: Subsampling, top: seq<u8>, bottom: seq<u8>, x: seq<u8>, y: seq<u8>)
    requires !sub.x && |top| == |bottom| == |x| == |y| == 16 && IsMask(top) && IsMask(bottom)
    ensures IsMask(Weights(sub, top, bottom, 16)) && WeightsPlain(sub, top, bottom) == Weights(sub, top, bottom, 16)
    ensures
      var m := WeightsPlain(sub, top, bottom);
      BlendHalves(x, y, m, Complement(m)) == BlendRow(Weights(sub, top, bottom, 16), x, y)
  {
    WeightsAreMask(sub, top, bottom, 16);
    hide BlendHalves, LaneScaled, Blended, SubByte, AvgByte;
    var m := WeightsPlain(sub, top, bottom);
    forall i | 0 <= i < 16
      ensures BlendHalves(x, y, m, Complement(m))[i] == BlendRow(Weights(sub, top, bottom, 16), x, y)[i]
    {
      BlendHalvesAt(x, y, m, Complement(m), i);
      LanesBlend(m[i], x[i], y[i]);
    }
  }

  // Widths 4 and 8: n pixels in the low part of the registers.
  lemma {:induction false} RowLow(sub: Subsampling, n: nat, top: seq<u8>, bottom: seq<u8>, x: seq<u8>, y: seq<u8>)
    requires n <= 8 && |top| == |bottom| == |x| == |y| == 16 && IsMask(top) && IsMask(bottom)
    ensures IsMask(Weights(sub, top, bottom, n))
    ensures var m := Weights8(sub, top, bottom);
        BlendLow(x, y, m, Complement(m))[..n]
        == BlendRow(Weights(sub, top, bottom, n), x[..n], y[..n])
  {
    WeightsAreMask(sub, top, bottom, n);
    hide BlendLow, LaneScaled, Blended, SubByte, WeightAt, Weights8, IsMask;
    var m := Weights8(sub, top, bottom);
    forall i | 0 <= i < n
      ensures BlendLow(x, y, m, Complement(m))[i] == BlendRow(Weights(sub, top, bottom, n), x[..n], y[..n])[i]
    {
      PixelLow(sub, top, bottom, x, y, i);
    }
  }

  lemma {:induction false} PixelLow(sub: Subsampling, top: seq<u8>, bottom: seq<u8>, x: seq<u8>, y: seq<u8>, i: nat)
    requires i < 8 && |top| == |bottom| == |x| == |y| == 16 && IsMask(top) && IsMask(bottom)
    ensures WeightAt(sub, top, bottom, i) <= MAX_ALPHA
    ensures var m := Weights8(sub, top, bottom);
      BlendLow(x, y, m, Complement(m))[i] == Blended(WeightAt(sub, top, bottom, i), x[i], y[i])
  {
    hide BlendLow, LaneScaled, Blended, SubByte, WeightAt, Weights8, IsMask;
    var m := Weights8(sub, top, bottom);
    WeightBounds(sub, top, bottom, i);
    Weights8At(sub, top, bottom, i);
    BlendHalvesAt(x, y, m, Complement(m), i);
    LanesBlend(m[i], x[i], y[i]);
  }

  // ----- a block -----

  datatype Blocks = Blocks(src0: seq<u8>, stride0: nat, src1: seq<u8>, stride1: nat, mask: seq<u8>, maskStride: nat) {
    // Every pixel and every mask entry of h rows of w pixels is there, and no entry is above 64.
    ghost predicate Valid(sub: Subsampling, w: nat, h: nat) {
      && Readable(|src0|, stride0, w, h) && Readable(|src1|, stride1, w, h) && IsMask(mask)
      && forall r :: 0 <= r < h ==> MaskOffset(sub, r) + LastRow(sub) + sub.Span(w) <= |mask|
    }

    ghost function MaskOffset(sub: Subsampling, r: nat): nat { Offset(r, if sub.y then 2 * maskStride else maskStride) }

    function LastRow(sub: Subsampling): nat { if sub.y then maskStride else 0 }
  }

  // What a call needs in memory: both sources and the mask up to the end of their last rows.
  lemma {:induction false} ValidWhen(b: Blocks, sub: Subsampling, w: nat, h: nat)
    requires h > 0
    ensures
      b.Valid(sub, w, h) <==>
        && Offset(h - 1, b.stride0) + w <= |b.src0| && Offset(h - 1, b.stride1) + w <= |b.src1|
        && Offset(h - 1, if sub.y then 2 * b.maskStride else b.maskStride) + (if sub.y then b.maskStride else 0)
           + (if sub.x then 2 * w else w) <= |b.mask|
        && forall i :: 0 <= i < |b.mask| ==> b.mask[i] <= 64
  {
    hide Offset, Readable;
    ReadableWhen(|b.src0|, b.stride0, w, h);
    ReadableWhen(|b.src1|, b.stride1, w, h);
    var step := if sub.y then 2 * b.maskStride else b.maskStride;
    forall r | 0 <= r < h
      ensures Offset(r, step) <= Offset(h - 1, step)
    {
      if r < h - 1 { OffsetsApart(r, h - 1, step); }
    }
    assert b.MaskOffset(sub, h - 1) == Offset(h - 1, step);
  }

  // A row of the blend, from where the pixels and the mask entries are.
  ghost function RowAt(b: Blocks, sub: Subsampling, w: nat, at0: nat, at1: nat, atMask: nat): (row: seq<u8>)
    requires at0 + w <= |b.src0| && at1 + w <= |b.src1| && atMask + b.LastRow(sub) + sub.Span(w) <= |b.mask|
        && IsMask(b.mask)
    ensures |row| == w
  {
    var top := Load(b.mask, atMask, sub.Span(w));
    var bottom := Load(b.mask, atMask + b.LastRow(sub), sub.Span(w));
    WeightsAreMask(sub, top, bottom, w);
    BlendRow(Weights(sub, top, bottom, w), Load(b.src0, at0, w), Load(b.src1, at1, w))
  }

  ghost function BlendBlock(b: Blocks, sub: Subsampling, w: nat, h: nat): (rows: seq<seq<u8>>)
    requires b.Valid(sub, w, h)
    ensures |rows| == h && IsBlock(rows, w)
  {
    seq(h, r requires 0 <= r < h => RowAt(b, sub, w, Offset(r, b.stride0), Offset(r, b.stride1), b.MaskOffset(sub, r)))
  }

  lemma {:induction false} BlockRow(b: Blocks, sub: Subsampling, w: nat, h: nat, r: nat)
    requires b.Valid(sub, w, h) && r < h
    ensures Offset(r, b.stride0) + w <= |b.src0| && Offset(r, b.stride1) + w <= |b.src1|
    ensures b.MaskOffset(sub, r) + b.LastRow(sub) + sub.Span(w) <= |b.mask| && IsMask(b.mask)
    ensures Offset(r + 1, b.stride0) == Offset(r, b.stride0) + b.stride0
        && Offset(r + 1, b.stride1) == Offset(r, b.stride1) + b.stride1
    ensures b.MaskOffset(sub, r + 1) == b.MaskOffset(sub, r) + if sub.y then 2 * b.maskStride else b.maskStride
    ensures BlendBlock(b, sub, w, h)[r] == RowAt(b, sub, w, Offset(r, b.stride0), Offset(r, b.stride1),
                                                 b.MaskOffset(sub, r))
  {
    OffsetNext(r, b.stride0);
    OffsetNext(r, b.stride1);
    OffsetNext(r, if sub.y then 2 * b.maskStride else b.maskStride);
    hide Offset, RowAt;
  }

  // Which of the sources are the destination, read as it is at the moment.
  datatype Places = Places(first: bool, second: bool) {
    function Now(b: Blocks, memory: seq<u8>): Blocks {
      b.(src0 := if first then memory else b.src0, src1 := if second then memory else b.src1)
    }

    // A source that is the destination has its stride too.
    ghost predicate Allowed(b: Blocks, memory: seq<u8>, stride: nat) {
      (first ==> b.src0 == memory && b.stride0 == stride) && (second ==> b.src1 == memory && b.stride1 == stride)
    }
  }

  lemma {:induction false} SameRow(b: Blocks, b2: Blocks, sub: Subsampling, w: nat, at0: nat, at1: nat, atMask: nat)
    requires at0 + w <= |b.src0| && at1 + w <= |b.src1| && atMask + b.LastRow(sub) + sub.Span(w) <= |b.mask|
        && IsMask(b.mask)
    requires b2.mask == b.mask && b2.maskStride == b.maskStride && at0 + w <= |b2.src0| && at1 + w <= |b2.src1|
    requires Load(b2.src0, at0, w) == Load(b.src0, at0, w) && Load(b2.src1, at1, w) == Load(b.src1, at1, w)
    ensures RowAt(b2, sub, w, at0, at1, atMask) == RowAt(b, sub, w, at0, at1, atMask)
  {
    hide Weights, BlendRow, IsMask;
  }

  lemma {:induction false} BlockStart(b: Blocks, sub: Subsampling)
    ensures Offset(0, b.stride0) == 0 && Offset(0, b.stride1) == 0 && b.MaskOffset(sub, 0) == 0
  {
  }

  lemma {:induction false} LoadedIsMask(mask: seq<u8>, at: nat, n: nat)
    requires at + n <= |mask| && IsMask(mask)
    ensures IsMask(Load(mask, at, n))
  {
  }

  // Four or eight pixels, padded with zeros to a register.
  function Padded(s: seq<u8>): (r: seq<u8>)
    requires |s| <= 16
    ensures |r| == 16
  {
    s + Set1(0, 16 - |s|)
  }

  lemma {:induction false} WeightsPadded(sub: Subsampling, top: seq<u8>, bottom: seq<u8>, zeros: seq<u8>, w: nat)
    requires |top| == |bottom| == sub.Span(w)
    ensures Weights(sub, top + zeros, bottom + zeros, w) == Weights(sub, top, bottom, w)
  {
    hide AvgByte, Quarter4;
  }

  lemma {:induction false} RowPadded(sub: Subsampling, n: nat, top: seq<u8>, bottom: seq<u8>, x: seq<u8>, y: seq<u8>)
    requires n <= 8 && |top| == |bottom| == sub.Span(n) && |x| == |y| == n && IsMask(top) && IsMask(bottom)
    ensures IsMask(Weights(sub, top, bottom, n))
    ensures
      var m := Weights8(sub, Padded(top), Padded(bottom));
      BlendLow(Padded(x), Padded(y), m, Complement(m))[..n] == BlendRow(Weights(sub, top, bottom, n), x, y)
  {
    hide Weights8, BlendLow, Complement, Weights, BlendRow;
    RowLow(sub, n, Padded(top), Padded(bottom), Padded(x), Padded(y));
    WeightsPadded(sub, top, bottom, Set1(0, 16 - sub.Span(n)), n);
    assert Padded(x)[..n] == x && Padded(y)[..n] == y;
  }

  // A row of width 4, 8 or 16.
  method BlendShort(sub: Subsampling, w: nat, top: seq<u8>, bottom: seq<u8>, x: seq<u8>, y: seq<u8>, junk0: seq<u8>,
                    junk1: seq<u8>)
    returns (row: seq<u8>)
    requires w in {4, 8, 16} && |top| == |bottom| == sub.Span(w) && |x| == |y| == w && |junk0| == |junk1| == 16
    requires IsMask(top) && IsMask(bottom)
    ensures IsMask(Weights(sub, top, bottom, w)) && row == BlendRow(Weights(sub, top, bottom, w), x, y)
  {
    hide Weights16, Blend16, Weights8, BlendLow, BlendHalves, Weights, BlendRow, WeightsPlain, Complement,
        ComplementOfWords, IsMask, Padded;
    if w < 16 {
      RowPadded(sub, w, top, bottom, x, y);
      var m0 := Weights8(sub, Padded(top), Padded(bottom));
      row := BlendLow(Padded(x), Padded(y), m0, Complement(m0))[..w];
    } else if sub.x {
      Row16(sub, top, bottom, x, y, junk0, junk1);
      var m0 := Weights16(sub, top, bottom);
      row := Blend16(x, y, m0, Complement(m0), junk0, junk1)[..16];
    } else {
      RowPlain(sub, top, bottom, x, y);
      var m0 := WeightsPlain(sub, top, bottom);
      WeightsAreMask(sub, top, bottom, 16);
      ComplementsAgree(m0);
      row := BlendHalves(x, y, m0, if sub.y then ComplementOfWords(m0) else Complement(m0));
    }
  }

  // The blend of the row at these places, a row of width 4, 8 or 16, or a piece of 32 of a wider one.
  method BlendPiece(b: Blocks, sub: Subsampling, w: nat, at0: nat, at1: nat, atMask: nat, junk0: seq<u8>,
                    junk1: seq<u8>)
    returns (row: seq<u8>)
    requires w in {4, 8, 16, 32} && |junk0| == |junk1| == 16
    requires at0 + w <= |b.src0| && at1 + w <= |b.src1| && atMask + b.LastRow(sub) + sub.Span(w) <= |b.mask|
        && IsMask(b.mask)
    ensures row == RowAt(b, sub, w, at0, at1, atMask)
  {
    hide Weights32, Blend32, Weights, BlendRow, Complement, Load, IsMask;
    var n := sub.Span(w);
    LoadedIsMask(b.mask, atMask, n);
    LoadedIsMask(b.mask, atMask + b.LastRow(sub), n);
    var top, bottom := Load(b.mask, atMask, n), Load(b.mask, atMask + b.LastRow(sub), n);
    var x, y := Load(b.src0, at0, w), Load(b.src1, at1, w);
    if w == 32 {
      Row32(sub, top, bottom, x, y);
      var m0 := Weights32(sub, top, bottom);
      row := Blend32(x, y, m0, Complement(m0));
    } else {
      row := BlendShort(sub, w, top, bottom, x, y, junk0, junk1);
    }
  }

  // Rows are read before they are written.
  lemma {:induction false} SourcesKept(b: Blocks, p: Places, before: seq<u8>, memory: seq<u8>, stride: nat,
                                       sub: Subsampling, w: nat,
                                       r: nat, at0: nat, at1: nat, atMask: nat)
    requires p.Allowed(b, before, stride) && |memory| == |before|
    requires at0 == Offset(r, b.stride0) && at1 == Offset(r, b.stride1)
    requires at0 + w <= |b.src0| && at1 + w <= |b.src1| && atMask + b.LastRow(sub) + sub.Span(w) <= |b.mask|
        && IsMask(b.mask)
    requires Offset(r, stride) + w <= |before|
    requires memory[Offset(r, stride)..Offset(r, stride) + w] == before[Offset(r, stride)..Offset(r, stride) + w]
    ensures at0 + w <= |p.Now(b, memory).src0| && at1 + w <= |p.Now(b, memory).src1|
    ensures RowAt(p.Now(b, memory), sub, w, at0, at1, atMask) == RowAt(b, sub, w, at0, at1, atMask)
  {
    hide Offset, RowAt;
    SameRow(b, p.Now(b, memory), sub, w, at0, at1, atMask);
  }

  // Widths 4, 8 and 16: a store a row.
  method BlendNarrow(dst: array<u8>, dstStride: nat, b: Blocks, p: Places, sub: Subsampling, w: nat, h: nat,
                     junk0: seq<u8>, junk1: seq<u8>)
    requires w in {4, 8, 16} && h > 0 && b.Valid(sub, w, h) && Fits(dst.Length, 0, dstStride, w, h)
        && |junk0| == |junk1| == 16
    requires p.Allowed(b, dst[..], dstStride)
    modifies dst
    ensures dst[..] == PutRows(old(dst[..]), 0, dstStride, w, BlendBlock(b, sub, w, h))
  {
    hide Offset, Put, PutRows, Written, BlendBlock, RowAt, Blocks.Valid, Blocks.MaskOffset, Load, IsMask;
    ghost var before, rows := dst[..], BlendBlock(b, sub, w, h);
    WrittenNone(before, 0, dstStride, w, rows);
    BlockStart(b, sub);
    var at, at0, at1, atMask, i := 0, 0, 0, 0, 0;
    while i < h
      invariant 0 <= i <= h && at == Offset(i, dstStride)
      invariant at0 == Offset(i, b.stride0) && at1 == Offset(i, b.stride1) && atMask == b.MaskOffset(sub, i)
      invariant Written(dst[..], before, 0, dstStride, w, rows, i)
    {
      BlockRow(b, sub, w, h, i);
      NotYetWritten(dst[..], before, dstStride, w, rows, i);
      WrittenNext(dst[..], before, 0, dstStride, w, rows, i);
      SourcesKept(b, p, before, dst[..], dstStride, sub, w, i, at0, at1, atMask);
      var row := BlendPiece(p.Now(b, dst[..]), sub, w, at0, at1, atMask, junk0, junk1);
      Store(dst, at, row);
      at, at0, at1 := at + dstStride, at0 + b.stride0, at1 + b.stride1;
      atMask := atMask + if sub.y then 2 * b.maskStride else b.maskStride;
      i := i + 1;
    }
    WrittenAll(dst[..], before, 0, dstStride, w, rows);
  }

  // So are the pieces of a row.
  lemma {:induction false} PieceKept(b: Blocks, p: Places, before: seq<u8>, memory: seq<u8>, done: seq<u8>, at: nat,
                                     sub: Subsampling,
                                     at0: nat, at1: nat, atMask: nat)
    requires at + |done| + 32 <= |before| && memory == Put(before, at, done)
    requires (p.first ==> b.src0 == before && at0 == at + |done|)
        && (p.second ==> b.src1 == before && at1 == at + |done|)
    requires at0 + 32 <= |b.src0| && at1 + 32 <= |b.src1| && atMask + b.LastRow(sub) + sub.Span(32) <= |b.mask|
        && IsMask(b.mask)
    ensures at0 + 32 <= |p.Now(b, memory).src0| && at1 + 32 <= |p.Now(b, memory).src1|
    ensures RowAt(p.Now(b, memory), sub, 32, at0, at1, atMask) == RowAt(b, sub, 32, at0, at1, atMask)
  {
    hide RowAt, Put;
    PutKeepsAfter(before, at, done, at + |done|, 32);
    SameRow(b, p.Now(b, memory), sub, 32, at0, at1, atMask);
  }

  // A row of a multiple of 32 pixels.
  method BlendWideRow(dst: array<u8>, at: nat, b: Blocks, p: Places, sub: Subsampling, w: nat, at0: nat, at1: nat,
                      atMask: nat,
                      junk0: seq<u8>, junk1: seq<u8>)
    requires w % 32 == 0 && at + w <= dst.Length && |junk0| == |junk1| == 16
    requires at0 + w <= |b.src0| && at1 + w <= |b.src1| && atMask + b.LastRow(sub) + sub.Span(w) <= |b.mask|
        && IsMask(b.mask)
    requires (p.first ==> b.src0 == dst[..] && at0 == at) && (p.second ==> b.src1 == dst[..] && at1 == at)
    modifies dst
    ensures dst[..] == Put(old(dst[..]), at, RowAt(b, sub, w, at0, at1, atMask))
  {
    hide Put, RowAt;
    ghost var before, row := dst[..], RowAt(b, sub, w, at0, at1, atMask);
    PutMore(before, at, row, 0, 0);
    var c := 0;
    while c < w
      invariant 0 <= c <= w && c % 32 == 0 && dst[..] == Put(before, at, row[..c])
    {
      RowPiece(b, sub, w, at0, at1, atMask, c);
      PutMore(before, at, row, c, 32);
      PieceKept(b, p, before, dst[..], row[..c], at, sub, at0 + c, at1 + c, atMask + sub.Span(c));
      var piece := BlendPiece(p.Now(b, dst[..]), sub, 32, at0 + c, at1 + c, atMask + sub.Span(c), junk0, junk1);
      Store(dst, at + c, piece);
      c := c + 32;
    }
  }

  // The weight of pixel c of a row whose mask entries start at a place in memory, with the
  // second row of entries, if any, so much further on.
  function EntryWeight(mask: seq<u8>, further: nat, sub: Subsampling, atMask: nat, c: nat): u8
    requires atMask + further + sub.Span(c + 1) <= |mask|
  {
    var top := atMask + sub.Span(c);
    var bottom := top + further;
    if sub.x && sub.y then Quarter4(mask[top], mask[top + 1], mask[bottom], mask[bottom + 1])
    else if sub.x then AvgByte(mask[top], mask[top + 1])
    else if sub.y then AvgByte(mask[top], mask[bottom])
    else mask[top]
  }

  lemma {:induction false} RowPixel(b: Blocks, sub: Subsampling, w: nat, at0: nat, at1: nat, atMask: nat, c: nat)
    requires at0 + w <= |b.src0| && at1 + w <= |b.src1| && atMask + b.LastRow(sub) + sub.Span(w) <= |b.mask|
        && IsMask(b.mask)
    requires c < w
    ensures atMask + b.LastRow(sub) + sub.Span(c + 1) <= |b.mask|
        && EntryWeight(b.mask, b.LastRow(sub), sub, atMask, c) <= MAX_ALPHA
    ensures RowAt(b, sub, w, at0, at1, atMask)[c]
        == Blended(EntryWeight(b.mask, b.LastRow(sub), sub, atMask, c), b.src0[at0 + c], b.src1[at1 + c])
  {
    hide AvgByte, Quarter4, Blended;
    var n := sub.Span(w);
    var top, bottom := Load(b.mask, atMask, n), Load(b.mask, atMask + b.LastRow(sub), n);
    WeightBounds(sub, top, bottom, c);
    EntryLoaded(b.mask, b.LastRow(sub), sub, w, atMask, c);
    hide EntryWeight, WeightAt, Load;
    assert Load(b.src0, at0, w)[c] == b.src0[at0 + c] && Load(b.src1, at1, w)[c]
        == b.src1[at1 + c] by { LoadAt(b.src0, at0, w, c); LoadAt(b.src1, at1, w, c); }
  }

  lemma {:induction false} LoadAt<T>(memory: seq<T>, at: nat, n: nat, i: nat)
    requires at + n <= |memory| && i < n
    ensures Load(memory, at, n)[i] == memory[at + i]
  {
  }

  lemma {:induction false} EntryLoaded(mask: seq<u8>, further: nat, sub: Subsampling, w: nat, atMask: nat, c: nat)
    requires atMask + further + sub.Span(w) <= |mask| && c < w
    ensures WeightAt(sub, Load(mask, atMask, sub.Span(w)), Load(mask, atMask + further, sub.Span(w)), c)
         == EntryWeight(mask, further, sub, atMask, c)
  {
    hide AvgByte, Quarter4;
  }

  lemma {:induction false} RowPiece(b: Blocks, sub: Subsampling, w: nat, at0: nat, at1: nat, atMask: nat, c: nat)
    requires c + 32 <= w
    requires at0 + w <= |b.src0| && at1 + w <= |b.src1| && atMask + b.LastRow(sub) + sub.Span(w) <= |b.mask|
        && IsMask(b.mask)
    ensures atMask + sub.Span(c) + b.LastRow(sub) + sub.Span(32) <= |b.mask|
    ensures RowAt(b, sub, w, at0, at1, atMask)[c..c + 32] == RowAt(b, sub, 32, at0 + c, at1 + c, atMask + sub.Span(c))
  {
    hide RowAt, Blended, EntryWeight, IsMask;
    var row, piece := RowAt(b, sub, w, at0, at1, atMask), RowAt(b, sub, 32, at0 + c, at1 + c, atMask + sub.Span(c));
    forall i | 0 <= i < 32
      ensures row[c..c + 32][i] == piece[i]
    {
      RowPixel(b, sub, w, at0, at1, atMask, c + i);
      RowPixel(b, sub, 32, at0 + c, at1 + c, atMask + sub.Span(c), i);
      EntryShifted(b.mask, b.LastRow(sub), sub, atMask, c, i);
    }
  }

  lemma {:induction false} EntryShifted(mask: seq<u8>, further: nat, sub: Subsampling, atMask: nat, c: nat, i: nat)
    requires atMask + further + sub.Span(c + i + 1) <= |mask|
    ensures EntryWeight(mask, further, sub, atMask, c + i) == EntryWeight(mask, further, sub, atMask + sub.Span(c), i)
  {
    hide AvgByte, Quarter4;
  }

  method BlendWide(dst: array<u8>, dstStride: nat, b: Blocks, p: Places, sub: Subsampling, w: nat, h: nat,
                   junk0: seq<u8>, junk1: seq<u8>)
    requires w % 32 == 0 && h > 0 && b.Valid(sub, w, h) && Fits(dst.Length, 0, dstStride, w, h)
        && |junk0| == |junk1| == 16
    requires p.Allowed(b, dst[..], dstStride)
    modifies dst
    ensures dst[..] == PutRows(old(dst[..]), 0, dstStride, w, BlendBlock(b, sub, w, h))
  {
    hide Offset, Put, PutRows, Written, BlendBlock, RowAt, Blocks.Valid, Blocks.MaskOffset, Load, IsMask;
    ghost var before, rows := dst[..], BlendBlock(b, sub, w, h);
    WrittenNone(before, 0, dstStride, w, rows);
    BlockStart(b, sub);
    var at, at0, at1, atMask, i := 0, 0, 0, 0, 0;
    while i < h
      invariant 0 <= i <= h && at == Offset(i, dstStride)
      invariant at0 == Offset(i, b.stride0) && at1 == Offset(i, b.stride1) && atMask == b.MaskOffset(sub, i)
      invariant Written(dst[..], before, 0, dstStride, w, rows, i)
    {
      BlockRow(b, sub, w, h, i);
      NotYetWritten(dst[..], before, dstStride, w, rows, i);
      WrittenNext(dst[..], before, 0, dstStride, w, rows, i);
      SourcesKept(b, p, before, dst[..], dstStride, sub, w, i, at0, at1, atMask);
      BlendWideRow(dst, at, p.Now(b, dst[..]), p, sub, w, at0, at1, atMask, junk0, junk1);
      at, at0, at1 := at + dstStride, at0 + b.stride0, at1 + b.stride1;
      atMask := atMask + if sub.y then 2 * b.maskStride else b.maskStride;
      i := i + 1;
    }
    WrittenAll(dst[..], before, 0, dstStride, w, rows);
  }

  /** svt_aom_blend_a64_mask_avx2, for the sizes it does not leave to the C version; a source may be the destination. */
  method BlendMask(dst: array<u8>, dstStride: nat, b: Blocks, p: Places, sub: Subsampling, w: nat, h: nat,
                   junk0: seq<u8>, junk1: seq<u8>)
    requires w in {4, 8, 16, 32, 64, 128} && h >= 4 && b.Valid(sub, w, h) && Fits(dst.Length, 0, dstStride, w, h)
    requires |junk0| == |junk1| == 16
    requires p.Allowed(b, dst[..], dstStride)
    modifies dst
    ensures dst[..] == PutRows(old(dst[..]), 0, dstStride, w, BlendBlock(b, sub, w, h))
  {
    hide Fits, PutRows, BlendBlock, Blocks.Valid, Places.Allowed;
    if w <= 16 {
      BlendNarrow(dst, dstStride, b, p, sub, w, h, junk0, junk1);
    } else {
      BlendWide(dst, dstStride, b, p, sub, w, h, junk0, junk1);
    }
  }

  // The averages in numbers: entry q of the mask and its neighbours in the columns and rows that are averaged.
  lemma {:induction false} EntryWeightIs(b: Blocks, sub: Subsampling, r: nat, c: nat, q: nat)
    requires b.MaskOffset(sub, r) + b.LastRow(sub) + sub.Span(c + 1) <= |b.mask|
    requires q == Offset(r, if sub.y then 2 * b.maskStride else b.maskStride) + if sub.x then 2 * c else c
    ensures q + (if sub.y then b.maskStride else 0) + (if sub.x then 1 else 0) < |b.mask|
    ensures
      var m: nat := EntryWeight(b.mask, b.LastRow(sub), sub, b.MaskOffset(sub, r), c);
      var mask: seq<nat>, s := b.mask, b.maskStride;
      if sub.x && sub.y then m == (mask[q] + mask[q + 1] + mask[q + s] + mask[q + s + 1] + 2) / 4
      else if sub.x then m == (mask[q] + mask[q + 1] + 1) / 2
      else if sub.y then m == (mask[q] + mask[q + s] + 1) / 2
      else m == mask[q]
  {
    hide Offset;
  }

  // Every pixel is the rounded weighted average of its two sources and lies between them,
  // with the weight averaged from the mask entries of its mode.
  lemma {:induction false} BlendAt(before: seq<u8>, dstStride: nat, b: Blocks, sub: Subsampling, w: nat, h: nat,
                                   r: nat, c: nat)
    requires b.Valid(sub, w, h) && Fits(|before|, 0, dstStride, w, h) && r < h && c < w
    ensures Offset(r, dstStride) + c < |before| && Offset(r, b.stride0) + c < |b.src0|
        && Offset(r, b.stride1) + c < |b.src1|
    ensures b.MaskOffset(sub, r) + b.LastRow(sub) + sub.Span(c + 1) <= |b.mask|
    ensures
      var m := EntryWeight(b.mask, b.LastRow(sub), sub, b.MaskOffset(sub, r), c);
      var x, y := b.src0[Offset(r, b.stride0) + c], b.src1[Offset(r, b.stride1) + c];
      var pixel := PutRows(before, 0, dstStride, w, BlendBlock(b, sub, w, h))[Offset(r, dstStride) + c];
      m <= 64 && pixel == (m * x + (64 - m) * y + 32) / 64 && Min(x, y) <= pixel <= Max(x, y)
  {
    hide Offset, PutRows, BlendBlock, Fits, Blocks.Valid, Blocks.MaskOffset, EntryWeight, RowAt, IsMask;
    BlockRow(b, sub, w, h, r);
    PutRowsAt(before, 0, dstStride, w, BlendBlock(b, sub, w, h), r, c);
    RowPixel(b, sub, w, Offset(r, b.stride0), Offset(r, b.stride1), b.MaskOffset(sub, r), c);
    BlendBounds(EntryWeight(b.mask, b.LastRow(sub), sub, b.MaskOffset(sub, r), c), b.src0[Offset(r, b.stride0) + c],
                b.src1[Offset(r, b.stride1) + c]);
  }
}
