/** The difference-weighted compound masks (section 7.11.3.12 of the AV1 bitstream specification). */
module CompoundMask {
  import opened Arithmetic
  import opened MachineInts
  import opened MaskWeights
  import opened Plane
  import opened Shifts
  import opened Simd

  const MASK_BASE := 38

  // ----- one pixel -----

  function Half(shift: nat): nat { Pow2(shift) / 2 }

  function Distance(x: nat, y: nat): nat { if x < y then y - x else x - y }

  // The weight of a pixel without any width limit, and its complement.
  function Weight(x: u16, y: u16, shift: nat): (m: u8)
    ensures MASK_BASE <= m <= MAX_ALPHA
  {
    Min(MAX_ALPHA, MASK_BASE + Down(Distance(x, y) + Half(shift), shift) / 16)
  }

  function MaskOf(x: u16, y: u16, shift: nat, inverse: bool): (m: u8)
    ensures m <= MAX_ALPHA
  {
    if inverse then MAX_ALPHA - Weight(x, y, shift) else Weight(x, y, shift)
  }

  // ----- the vector form -----

  // calc_mask_d16_avx2
  function CalcMask(src0: seq<u16>, src1: seq<u16>, shift: nat): (m: seq<u16>)
    requires |src0| == |src1|
    ensures |m| == |src0|
  {
    var n := |src0|;
    var diffa := SubsEpu16(src0, src1);
    var diffb := SubsEpu16(src1, src0);
    var diff := MaxEpu16(diffa, diffb);
    var diffRound := SrliEpi16(AddsEpu16(diff, Set1(W16(Half(shift)), n)), shift);
    var diffFactor := SrliEpi16(diffRound, 4);
    var diffMask := AddsEpi16(diffFactor, Set1(MASK_BASE, n));
    MinEpi16(diffMask, Set1(MAX_ALPHA, n))
  }

  // calc_mask_d16_inv_avx2
  function CalcMaskInv(src0: seq<u16>, src1: seq<u16>, shift: nat): (m: seq<u16>)
    requires |src0| == |src1|
    ensures |m| == |src0|
  {
    SubEpi16(Set1(MAX_ALPHA, |src0|), CalcMask(src0, src1, shift))
  }

  function Calc(src0: seq<u16>, src1: seq<u16>, shift: nat, inverse: bool): (m: seq<u16>)
    requires |src0| == |src1|
    ensures |m| == |src0|
  {
    if inverse then CalcMaskInv(src0, src1, shift) else CalcMask(src0, src1, shift)
  }

  // The lane computation.
  function MaskLane(x: u16, y: u16, shift: nat): u16 {
    var a, b := SubsLane(x, y), SubsLane(y, x);
    var rounded := ShiftLane(AddsLane(if a < b then b else a, W16(Half(shift))), shift);
    MinSignedLane(AddsSignedLane(ShiftLane(rounded, 4), MASK_BASE), MAX_ALPHA)
  }

  lemma {:induction false} CalcMaskLane(src0: seq<u16>, src1: seq<u16>, shift: nat, i: nat)
    requires |src0| == |src1| && i < |src0|
    ensures CalcMask(src0, src1, shift)[i] == MaskLane(src0[i], src1[i], shift)
  {
    hide SubsLane, AddsLane, ShiftLane, MinSignedLane, AddsSignedLane, W16, Half;
  }

  lemma {:induction false} DownMonotone(x: nat, y: nat, n: nat)
    requires x <= y
    ensures Down(x, n) <= Down(y, n)
    decreases n
  {
    if n > 0 {
      DownMonotone(x / 2, y / 2, n - 1);
    }
  }

  lemma {:induction false} DownFurther(x: nat, m: nat, n: nat)
    requires m <= n
    ensures Down(x, n) <= Down(x, m)
    decreases m
  {
    if m > 0 {
      DownFurther(x / 2, m - 1, n - 1);
    }
  }

  lemma {:induction false} HalfBounds(shift: nat)
    requires shift <= 15
    ensures Half(shift) <= 0x4000
  {
    PowGrows(shift, 15);
    assert Pow2(15) == 0x8000;
  }

  // What the lanes compute: the weight, but for a sum held at the top of sixteen bits.
  lemma {:induction false} LaneIsClamped(x: u16, y: u16, shift: nat)
    requires shift <= 15
    ensures MaskLane(x, y, shift) == Min(MAX_ALPHA, MASK_BASE
        + Down(Min(0xFFFF, Distance(x, y) + Half(shift)), shift) / 16)
  {
    hide Half, Down, AddsSignedLane, MinSignedLane, W16;
    HalfBounds(shift);
    var sum := AddsLane(Distance(x, y), Half(shift));
    var factor := Down(sum, shift) / 16;
    ShiftFour(Down(sum, shift));
    SmallLanes(Half(shift), 0);
    SmallLanes(factor, MASK_BASE);
    SmallLanes(factor + MASK_BASE, MAX_ALPHA);
  }

  lemma {:induction false} ShiftFour(x: u16)
    ensures ShiftLane(x, 4) == x / 16
  {
    assert Down(x, 4) == Down(x / 2, 3) == Down(x / 2 / 2, 2) == Down(x / 2 / 2 / 2, 1) == x / 2 / 2 / 2 / 2;
  }

  // Saturation never shows while the shift is at most seven: whatever it changes is clamped
  // to the largest weight. From thirteen on both sums are too small to count.
  lemma {:induction false} LaneIsWeight(x: u16, y: u16, shift: nat)
    requires shift <= 7 || 13 <= shift <= 15
    ensures MaskLane(x, y, shift) == Weight(x, y, shift)
  {
    LaneIsClamped(x, y, shift);
    HalfBounds(shift);
    var sum := Distance(x, y) + Half(shift);
    hide Half, MaskLane, Down;
    if sum > 0xFFFF { BeyondTheTop(sum, shift); }
  }

  lemma {:induction false} BeyondTheTop(sum: nat, shift: nat)
    requires shift <= 7 || 13 <= shift <= 15
    requires 0xFFFF < sum <= 0x13FFF
    ensures Min(MAX_ALPHA, MASK_BASE + Down(0xFFFF, shift) / 16) == Min(MAX_ALPHA, MASK_BASE + Down(sum, shift) / 16)
  {
    DownMonotone(0xFFFF, sum, shift);
    if shift <= 7 {
      DownFurther(0xFFFF, shift, 7);
      assert Down(0xFFFF, 7) == 511;
    } else {
      DownFurther(sum, 13, shift);
      DownMonotone(sum, 0x13FFF, 13);
      assert Down(0x13FFF, 13) == 9;
    }
  }

  // And exactly then.
  lemma {:induction false} SaturationHidden(shift: nat)
    requires shift <= 15
    ensures (forall x: u16, y: u16 :: MaskLane(x, y, shift) == Weight(x, y, shift)) <==> shift <= 7 || shift >= 13
  {
    if shift <= 7 || shift >= 13 {
      forall x: u16, y: u16
        ensures MaskLane(x, y, shift) == Weight(x, y, shift)
      {
        LaneIsWeight(x, y, shift);
      }
    } else {
      SaturationShows(shift);
    }
  }

  lemma {:induction false} SaturationShows(shift: nat)
    requires 8 <= shift <= 12
    ensures MaskLane(0xFFFF, 0, shift) < Weight(0xFFFF, 0, shift)
  {
    LaneIsClamped(0xFFFF, 0, shift);
    AtTheTop(shift);
    hide MaskLane, Half, Down;
  }

  // One more than sixteen bits hold is a whole step of the weight.
  lemma {:induction false} AtTheTop(shift: nat)
    requires 8 <= shift <= 12
    ensures Down(0xFFFF, shift) / 16 < Down(0xFFFF + Half(shift), shift) / 16 <= 16
  {
    Powers();
    Tops();
    hide Down, Pow2;
  }

  lemma {:induction false} Powers()
    ensures Pow2(8) == 256 && Pow2(9) == 512 && Pow2(10) == 1024 && Pow2(11) == 2048 && Pow2(12) == 4096
  {
  }

  lemma {:induction false} Tops()
    ensures Down(0xFFFF, 8) == 255 && Down(0xFFFF + 128, 8) == 256
    ensures Down(0xFFFF, 9) == 127 && Down(0xFFFF + 256, 9) == 128
    ensures Down(0xFFFF, 10) == 63 && Down(0xFFFF + 512, 10) == 64
    ensures Down(0xFFFF, 11) == 31 && Down(0xFFFF + 1024, 11) == 32
    ensures Down(0xFFFF, 12) == 15 && Down(0xFFFF + 2048, 12) == 16
  {
  }

  // ----- the masks of a block -----

  datatype Sources = Sources(src0: seq<u16>, stride0: nat, src1: seq<u16>, stride1: nat) {
    ghost predicate Readable(width: nat, height: nat) {
      Plane.Readable(|src0|, stride0, width, height) && Plane.Readable(|src1|, stride1, width, height)
    }
  }

  // A row of the mask.
  ghost function MaskRow(s: Sources, width: nat, shift: nat, inverse: bool, r: nat): (row: seq<u8>)
    requires Offset(r, s.stride0) + width <= |s.src0| && Offset(r, s.stride1) + width <= |s.src1|
    ensures |row| == width
  {
    Masks(Row(s.src0, s.stride0, width, r), Row(s.src1, s.stride1, width, r), shift, inverse)
  }

  ghost function Masks(a: seq<u16>, b: seq<u16>, shift: nat, inverse: bool): (row: seq<u8>)
    requires |a| == |b|
    ensures |row| == |a|
  {
    seq(|a|, i requires 0 <= i < |a| => MaskOf(a[i], b[i], shift, inverse))
  }

  ghost function MaskBlock(s: Sources, width: nat, shift: nat, inverse: bool, height: nat): (rows: seq<seq<u8>>)
    requires s.Readable(width, height)
    ensures |rows| == height && IsBlock(rows, width)
  {
    seq(height, r requires 0 <= r < height => MaskRow(s, width, shift, inverse, r))
  }

  lemma {:induction false} BlockRow(s: Sources, width: nat, shift: nat, inverse: bool, height: nat, r: nat)
    requires s.Readable(width, height) && r < height
    ensures Offset(r, s.stride0) + width <= |s.src0| && Offset(r, s.stride1) + width <= |s.src1|
    ensures Offset(r + 1, s.stride0) == Offset(r, s.stride0) + s.stride0
        && Offset(r + 1, s.stride1) == Offset(r, s.stride1) + s.stride1
    ensures MaskBlock(s, width, shift, inverse, height)[r]
         == Masks(Load(s.src0, Offset(r, s.stride0), width), Load(s.src1, Offset(r, s.stride1), width), shift, inverse)
  {
    OffsetNext(r, s.stride0);
    OffsetNext(r, s.stride1);
    hide Offset, Masks;
  }

  lemma {:induction false} LanePacked(x: u16, y: u16, shift: nat, inverse: bool)
    requires shift <= 7
    ensures PackLane(if inverse then SubLane(MAX_ALPHA, MaskLane(x, y, shift)) else MaskLane(x, y, shift))
        == MaskOf(x, y, shift, inverse)
  {
    hide MaskLane, Weight, SubLane, PackLane;
    LaneIsWeight(x, y, shift);
    var m := Weight(x, y, shift);
    SmallLanes(MAX_ALPHA, m);
    SmallLanes(m, 0);
    SmallLanes(MAX_ALPHA - m, 0);
  }

  lemma {:induction false} CalcLane(src0: seq<u16>, src1: seq<u16>, shift: nat, inverse: bool, i: nat)
    requires |src0| == |src1| && i < |src0|
    ensures
      var lane := MaskLane(src0[i], src1[i], shift);
      Calc(src0, src1, shift, inverse)[i] == if inverse then SubLane(MAX_ALPHA, lane) else lane
  {
    CalcMaskLane(src0, src1, shift, i);
    hide CalcMask, MaskLane, SubLane;
  }

  // Packing what the lanes compute gives the mask.
  lemma {:induction false} PackedMasks(a: seq<u16>, b: seq<u16>, shift: nat, inverse: bool)
    requires |a| == |b| && shift <= 7
    ensures Packed(Calc(a, b, shift, inverse)) == Masks(a, b, shift, inverse)
  {
    hide Calc, MaskOf, PackLane, SubLane, MaskLane;
    forall i | 0 <= i < |a|
      ensures PackLane(Calc(a, b, shift, inverse)[i]) == MaskOf(a[i], b[i], shift, inverse)
    {
      CalcLane(a, b, shift, inverse, i);
      LanePacked(a[i], b[i], shift, inverse);
    }
  }

  lemma {:induction false} MasksConcat(a: seq<u16>, b: seq<u16>, c: seq<u16>, d: seq<u16>, shift: nat, inverse: bool)
    requires |a| == |b| && |c| == |d|
    ensures Masks(a + c, b + d, shift, inverse) == Masks(a, b, shift, inverse) + Masks(c, d, shift, inverse)
  {
    hide MaskOf;
  }

  // Packing two registers of lanes and ordering the quarters gives the masks of both.
  lemma {:induction false} PackedPair(a: seq<u16>, b: seq<u16>, c: seq<u16>, d: seq<u16>, shift: nat, inverse: bool)
    requires |a| == |b| == |c| == |d| == 16 && shift <= 7
    ensures Permute4x64(PackusEpi16(Calc(a, b, shift, inverse), Calc(c, d, shift, inverse)), 0, 2, 1, 3)
         == Masks(a, b, shift, inverse) + Masks(c, d, shift, inverse)
  {
    hide Calc, Masks, PackLane;
    var m, n := Calc(a, b, shift, inverse), Calc(c, d, shift, inverse);
    PackInOrder(m, n);
    PackedMasks(a, b, shift, inverse);
    PackedMasks(c, d, shift, inverse);
    assert Packed(m + n) == Packed(m) + Packed(n);
  }

  lemma {:induction false} OffsetsStart(s: Sources)
    ensures Offset(0, s.stride0) == 0 && Offset(0, s.stride1) == 0
  {
  }

  // Packing one register with zeros leaves its masks in the low half.
  lemma {:induction false} PackedOne(a: seq<u16>, b: seq<u16>, shift: nat, inverse: bool)
    requires |a| == |b| == 16 && shift <= 7
    ensures Permute4x64(PackusEpi16(Calc(a, b, shift, inverse), Set1(0, 16)), 0, 2, 1, 3)[..16]
        == Masks(a, b, shift, inverse)
  {
    hide Calc, Masks, PackLane;
    PackInOrder(Calc(a, b, shift, inverse), Set1(0, 16));
    PackedMasks(a, b, shift, inverse);
  }

  // Four narrow rows gathered in one register.
  lemma {:induction false} FourLows(src: seq<u16>, at: nat, stride: nat, n: nat)
    requires at + stride * 3 + n <= |src| && at + n <= |src| && at + stride + n <= |src| && at + stride * 2 + n <= |src|
    ensures SetM128i(UnpackLoEpi64(LoadLow(src, at + stride * 2, n), LoadLow(src, at + stride * 3, n)),
                     UnpackLoEpi64(LoadLow(src, at, n), LoadLow(src, at + stride, n)))
         == Load(src, at, n) + Load(src, at + stride, n)
             + (Load(src, at + stride * 2, n) + Load(src, at + stride * 3, n))
  {
  }

  // The case w == 4: four rows in one register, of which the low half is stored.
  method Build4(mask: array<u8>, s: Sources, h: nat, shift: nat, inverse: bool)
    requires shift <= 7 && h > 0 && h % 4 == 0 && s.Readable(4, h) && Fits(mask.Length, 0, 4, 4, h)
    modifies mask
    ensures mask[..] == PutRows(old(mask[..]), 0, 4, 4, MaskBlock(s, 4, shift, inverse, h))
  {
    hide Offset, Put, PutRows, Written, Masks, MaskBlock, Calc, Permute4x64, PackusEpi16, LoadLow, Packed;
    ghost var before, rows := mask[..], MaskBlock(s, 4, shift, inverse, h);
    WrittenNone(before, 0, 4, 4, rows);
    OffsetsStart(s);
    var at, at0, at1, i := 0, 0, 0, 0;
    while i < h
      invariant 0 <= i <= h && i % 4 == 0 && at == Offset(i, 4) && at0 == Offset(i, s.stride0)
          && at1 == Offset(i, s.stride1)
      invariant Written(mask[..], before, 0, 4, 4, rows, i)
    {
      BlockRow(s, 4, shift, inverse, h, i);
      BlockRow(s, 4, shift, inverse, h, i + 1);
      BlockRow(s, 4, shift, inverse, h, i + 2);
      BlockRow(s, 4, shift, inverse, h, i + 3);
      WrittenNextFour(mask[..], before, 0, 4, rows, i);
      var s0 := SetM128i(UnpackLoEpi64(LoadLow(s.src0, at0 + s.stride0 * 2, 4),
                                       LoadLow(s.src0, at0 + s.stride0 * 3, 4)),
                         UnpackLoEpi64(LoadLow(s.src0, at0, 4), LoadLow(s.src0, at0 + s.stride0, 4)));
      var s1 := SetM128i(UnpackLoEpi64(LoadLow(s.src1, at1 + s.stride1 * 2, 4),
                                       LoadLow(s.src1, at1 + s.stride1 * 3, 4)),
                         UnpackLoEpi64(LoadLow(s.src1, at1, 4), LoadLow(s.src1, at1 + s.stride1, 4)));
      FourLows(s.src0, at0, s.stride0, 4);
      FourLows(s.src1, at1, s.stride1, 4);
      var m8 := PackusEpi16(Calc(s0, s1, shift, inverse), Set1(0, 16));
      PackedOne(s0, s1, shift, inverse);
      MasksConcat(Load(s.src0, at0, 4), Load(s.src1, at1, 4), Load(s.src0, at0 + s.stride0, 4),
                  Load(s.src1, at1 + s.stride1, 4), shift, inverse);
      MasksConcat(Load(s.src0, at0 + s.stride0 * 2, 4), Load(s.src1, at1 + s.stride1 * 2, 4),
                  Load(s.src0, at0 + s.stride0 * 3, 4), Load(s.src1, at1 + s.stride1 * 3, 4), shift, inverse);
      MasksConcat(Load(s.src0, at0, 4) + Load(s.src0, at0 + s.stride0, 4),
                  Load(s.src1, at1, 4) + Load(s.src1, at1 + s.stride1, 4),
                  Load(s.src0, at0 + s.stride0 * 2, 4) + Load(s.src0, at0 + s.stride0 * 3, 4),
                  Load(s.src1, at1 + s.stride1 * 2, 4) + Load(s.src1, at1 + s.stride1 * 3, 4), shift, inverse);
      Store(mask, at, Permute4x64(m8, 0, 2, 1, 3)[..16]);
      at, at0, at1 := at + 16, at0 + 4 * s.stride0, at1 + 4 * s.stride1;
      i := i + 4;
    }
    WrittenAll(mask[..], before, 0, 4, 4, rows);
  }

  // The case w == 8: four rows a time.
  method Build8(mask: array<u8>, s: Sources, h: nat, shift: nat, inverse: bool)
    requires shift <= 7 && h > 0 && h % 4 == 0 && s.Readable(8, h) && Fits(mask.Length, 0, 8, 8, h)
    modifies mask
    ensures mask[..] == PutRows(old(mask[..]), 0, 8, 8, MaskBlock(s, 8, shift, inverse, h))
  {
    hide Offset, Put, PutRows, Written, Masks, MaskBlock, Calc, Permute4x64, PackusEpi16;
    ghost var before, rows := mask[..], MaskBlock(s, 8, shift, inverse, h);
    WrittenNone(before, 0, 8, 8, rows);
    OffsetsStart(s);
    var at, at0, at1, i := 0, 0, 0, 0;
    while i < h
      invariant 0 <= i <= h && i % 4 == 0 && at == Offset(i, 8) && at0 == Offset(i, s.stride0)
          && at1 == Offset(i, s.stride1)
      invariant Written(mask[..], before, 0, 8, 8, rows, i)
    {
      BlockRow(s, 8, shift, inverse, h, i);
      BlockRow(s, 8, shift, inverse, h, i + 1);
      BlockRow(s, 8, shift, inverse, h, i + 2);
      BlockRow(s, 8, shift, inverse, h, i + 3);
      WrittenNextFour(mask[..], before, 0, 8, rows, i);
      var s0ab := SetM128i(Load(s.src0, at0 + s.stride0, 8), Load(s.src0, at0, 8));
      var s0cd := SetM128i(Load(s.src0, at0 + s.stride0 * 3, 8), Load(s.src0, at0 + s.stride0 * 2, 8));
      var s1ab := SetM128i(Load(s.src1, at1 + s.stride1, 8), Load(s.src1, at1, 8));
      var s1cd := SetM128i(Load(s.src1, at1 + s.stride1 * 3, 8), Load(s.src1, at1 + s.stride1 * 2, 8));
      var m8 := PackusEpi16(Calc(s0ab, s1ab, shift, inverse), Calc(s0cd, s1cd, shift, inverse));
      PackedPair(s0ab, s1ab, s0cd, s1cd, shift, inverse);
      MasksConcat(Load(s.src0, at0, 8), Load(s.src1, at1, 8), Load(s.src0, at0 + s.stride0, 8),
                  Load(s.src1, at1 + s.stride1, 8), shift, inverse);
      MasksConcat(Load(s.src0, at0 + s.stride0 * 2, 8), Load(s.src1, at1 + s.stride1 * 2, 8),
                  Load(s.src0, at0 + s.stride0 * 3, 8), Load(s.src1, at1 + s.stride1 * 3, 8), shift, inverse);
      Store(mask, at, Permute4x64(m8, 0, 2, 1, 3));
      at, at0, at1 := at + 32, at0 + 4 * s.stride0, at1 + 4 * s.stride1;
      i := i + 4;
    }
    WrittenAll(mask[..], before, 0, 8, 8, rows);
  }

  // The case w == 16: two rows a time.
  method Build16(mask: array<u8>, s: Sources, h: nat, shift: nat, inverse: bool)
    requires shift <= 7 && h > 0 && h % 2 == 0 && s.Readable(16, h) && Fits(mask.Length, 0, 16, 16, h)
    modifies mask
    ensures mask[..] == PutRows(old(mask[..]), 0, 16, 16, MaskBlock(s, 16, shift, inverse, h))
  {
    hide Offset, Put, PutRows, Written, Masks, MaskBlock, Calc, Permute4x64, PackusEpi16;
    ghost var before, rows := mask[..], MaskBlock(s, 16, shift, inverse, h);
    WrittenNone(before, 0, 16, 16, rows);
    OffsetsStart(s);
    var at, at0, at1, i := 0, 0, 0, 0;
    while i < h
      invariant 0 <= i <= h && i % 2 == 0 && at == Offset(i, 16) && at0 == Offset(i, s.stride0)
          && at1 == Offset(i, s.stride1)
      invariant Written(mask[..], before, 0, 16, 16, rows, i)
    {
      BlockRow(s, 16, shift, inverse, h, i);
      BlockRow(s, 16, shift, inverse, h, i + 1);
      WrittenNextTwo(mask[..], before, 0, 16, rows, i);
      var s0a, s0b := Load(s.src0, at0, 16), Load(s.src0, at0 + s.stride0, 16);
      var s1a, s1b := Load(s.src1, at1, 16), Load(s.src1, at1 + s.stride1, 16);
      var m8 := PackusEpi16(Calc(s0a, s1a, shift, inverse), Calc(s0b, s1b, shift, inverse));
      PackedPair(s0a, s1a, s0b, s1b, shift, inverse);
      Store(mask, at, Permute4x64(m8, 0, 2, 1, 3));
      at, at0, at1 := at + 32, at0 + 2 * s.stride0, at1 + 2 * s.stride1;
      i := i + 2;
    }
    WrittenAll(mask[..], before, 0, 16, 16, rows);
  }

  // Thirty-two pixels of a row: two registers, one store.
  method StoreWide(mask: array<u8>, at: nat, s: Sources, at0: nat, at1: nat, shift: nat, inverse: bool)
    requires shift <= 7 && at + 32 <= mask.Length && at0 + 32 <= |s.src0| && at1 + 32 <= |s.src1|
    modifies mask
    ensures mask[..] == Put(old(mask[..]), at, Masks(Load(s.src0, at0, 32), Load(s.src1, at1, 32), shift, inverse))
  {
    hide Put, Masks, Calc, Permute4x64, PackusEpi16;
    var s0a, s0b := Load(s.src0, at0, 16), Load(s.src0, at0 + 16, 16);
    var s1a, s1b := Load(s.src1, at1, 16), Load(s.src1, at1 + 16, 16);
    var m8 := PackusEpi16(Calc(s0a, s1a, shift, inverse), Calc(s0b, s1b, shift, inverse));
    PackedPair(s0a, s1a, s0b, s1b, shift, inverse);
    MasksConcat(s0a, s1a, s0b, s1b, shift, inverse);
    assert s0a + s0b == Load(s.src0, at0, 32) && s1a + s1b == Load(s.src1, at1, 32);
    Store(mask, at, Permute4x64(m8, 0, 2, 1, 3));
  }

  // The masks of 2n pixels, written as two halves.
  lemma {:induction false} SplitRow(d: seq<u8>, at: nat, s: Sources, at0: nat, at1: nat, n: nat, shift: nat,
                                    inverse: bool)
    requires at + 2 * n <= |d| && at0 + 2 * n <= |s.src0| && at1 + 2 * n <= |s.src1|
    ensures Put(d, at, Masks(Load(s.src0, at0, 2 * n), Load(s.src1, at1, 2 * n), shift, inverse))
         == Put(Put(d, at, Masks(Load(s.src0, at0, n), Load(s.src1, at1, n), shift, inverse)), at + n,
                Masks(Load(s.src0, at0 + n, n), Load(s.src1, at1 + n, n), shift, inverse))
  {
    hide Put, Masks;
    var a, b, c, e := Load(s.src0, at0, n), Load(s.src1, at1, n), Load(s.src0, at0 + n, n), Load(s.src1, at1 + n, n);
    assert Load(s.src0, at0, 2 * n) == a + c && Load(s.src1, at1, 2 * n) == b + e;
    MasksConcat(a, b, c, e, shift, inverse);
    PutTwo(d, at, Masks(a, b, shift, inverse), Masks(c, e, shift, inverse));
  }

  // Sixty-four and a hundred and twenty-eight pixels of a row.
  method StoreWide64(mask: array<u8>, at: nat, s: Sources, at0: nat, at1: nat, shift: nat, inverse: bool)
    requires shift <= 7 && at + 64 <= mask.Length && at0 + 64 <= |s.src0| && at1 + 64 <= |s.src1|
    modifies mask
    ensures mask[..] == Put(old(mask[..]), at, Masks(Load(s.src0, at0, 64), Load(s.src1, at1, 64), shift, inverse))
  {
    hide Put, Masks;
    SplitRow(mask[..], at, s, at0, at1, 32, shift, inverse);
    StoreWide(mask, at, s, at0, at1, shift, inverse);
    StoreWide(mask, at + 32, s, at0 + 32, at1 + 32, shift, inverse);
  }

  method StoreWide128(mask: array<u8>, at: nat, s: Sources, at0: nat, at1: nat, shift: nat, inverse: bool)
    requires shift <= 7 && at + 128 <= mask.Length && at0 + 128 <= |s.src0| && at1 + 128 <= |s.src1|
    modifies mask
    ensures mask[..] == Put(old(mask[..]), at, Masks(Load(s.src0, at0, 128), Load(s.src1, at1, 128), shift, inverse))
  {
    hide Put, Masks;
    SplitRow(mask[..], at, s, at0, at1, 64, shift, inverse);
    StoreWide64(mask, at, s, at0, at1, shift, inverse);
    StoreWide64(mask, at + 64, s, at0 + 64, at1 + 64, shift, inverse);
  }

  // The case w == 32: a row in one store.
  method Build32(mask: array<u8>, s: Sources, h: nat, shift: nat, inverse: bool)
    requires shift <= 7 && h > 0 && s.Readable(32, h) && Fits(mask.Length, 0, 32, 32, h)
    modifies mask
    ensures mask[..] == PutRows(old(mask[..]), 0, 32, 32, MaskBlock(s, 32, shift, inverse, h))
  {
    hide Offset, Put, PutRows, Written, Masks, MaskBlock;
    ghost var before, rows := mask[..], MaskBlock(s, 32, shift, inverse, h);
    WrittenNone(before, 0, 32, 32, rows);
    OffsetsStart(s);
    var at, at0, at1, i := 0, 0, 0, 0;
    while i < h
      invariant 0 <= i <= h && at == Offset(i, 32) && at0 == Offset(i, s.stride0) && at1 == Offset(i, s.stride1)
      invariant Written(mask[..], before, 0, 32, 32, rows, i)
    {
      BlockRow(s, 32, shift, inverse, h, i);
      WrittenNext(mask[..], before, 0, 32, 32, rows, i);
      StoreWide(mask, at, s, at0, at1, shift, inverse);
      at, at0, at1 := at + 32, at0 + s.stride0, at1 + s.stride1;
      i := i + 1;
    }
    WrittenAll(mask[..], before, 0, 32, 32, rows);
  }

  // The case w == 64: a row in two stores.
  method Build64(mask: array<u8>, s: Sources, h: nat, shift: nat, inverse: bool)
    requires shift <= 7 && h > 0 && s.Readable(64, h) && Fits(mask.Length, 0, 64, 64, h)
    modifies mask
    ensures mask[..] == PutRows(old(mask[..]), 0, 64, 64, MaskBlock(s, 64, shift, inverse, h))
  {
    hide Offset, Put, PutRows, Written, Masks, MaskBlock;
    ghost var before, rows := mask[..], MaskBlock(s, 64, shift, inverse, h);
    WrittenNone(before, 0, 64, 64, rows);
    OffsetsStart(s);
    var at, at0, at1, i := 0, 0, 0, 0;
    while i < h
      invariant 0 <= i <= h && at == Offset(i, 64) && at0 == Offset(i, s.stride0) && at1 == Offset(i, s.stride1)
      invariant Written(mask[..], before, 0, 64, 64, rows, i)
    {
      BlockRow(s, 64, shift, inverse, h, i);
      WrittenNext(mask[..], before, 0, 64, 64, rows, i);
      StoreWide64(mask, at, s, at0, at1, shift, inverse);
      at, at0, at1 := at + 64, at0 + s.stride0, at1 + s.stride1;
      i := i + 1;
    }
    WrittenAll(mask[..], before, 0, 64, 64, rows);
  }

  // The case w == 128: a row in four stores.
  method Build128(mask: array<u8>, s: Sources, h: nat, shift: nat, inverse: bool)
    requires shift <= 7 && h > 0 && s.Readable(128, h) && Fits(mask.Length, 0, 128, 128, h)
    modifies mask
    ensures mask[..] == PutRows(old(mask[..]), 0, 128, 128, MaskBlock(s, 128, shift, inverse, h))
  {
    hide Offset, Put, PutRows, Written, Masks, MaskBlock;
    ghost var before, rows := mask[..], MaskBlock(s, 128, shift, inverse, h);
    WrittenNone(before, 0, 128, 128, rows);
    OffsetsStart(s);
    var at, at0, at1, i := 0, 0, 0, 0;
    while i < h
      invariant 0 <= i <= h && at == Offset(i, 128) && at0 == Offset(i, s.stride0) && at1 == Offset(i, s.stride1)
      invariant Written(mask[..], before, 0, 128, 128, rows, i)
    {
      BlockRow(s, 128, shift, inverse, h, i);
      WrittenNext(mask[..], before, 0, 128, 128, rows, i);
      StoreWide128(mask, at, s, at0, at1, shift, inverse);
      at, at0, at1 := at + 128, at0 + s.stride0, at1 + s.stride1;
      i := i + 1;
    }
    WrittenAll(mask[..], before, 0, 128, 128, rows);
  }

  // The rounding of the convolution before, from which the shift follows.
  datatype ConvolveParams = ConvolveParams(round0: nat, round1: nat)

  const FILTER_BITS := 7

  // svt_av1_build_compound_diffwtd_mask_d16_avx2
  method BuildMask(mask: array<u8>, inverse: bool, s: Sources, h: nat, w: nat, params: ConvolveParams, bd: nat)
    requires w in {4, 8, 16, 32, 64, 128} && h > 0 && s.Readable(w, h) && Fits(mask.Length, 0, w, w, h)
    requires (w <= 8 ==> h % 4 == 0) && (w == 16 ==> h % 2 == 0)
    requires 0 <= 14 - params.round0 - params.round1 + (bd - 8) <= 7
    modifies mask
    ensures mask[..] == PutRows(old(mask[..]), 0, w, w,
                                MaskBlock(s, w, 14 - params.round0 - params.round1 + (bd - 8), inverse, h))
  {
    hide Fits, PutRows, MaskBlock, Sources.Readable;
    var shift := 2 * FILTER_BITS - params.round0 - params.round1 + (bd - 8);
    if w == 4 {
      Build4(mask, s, h, shift, inverse);
    } else if w == 8 {
      Build8(mask, s, h, shift, inverse);
    } else if w == 16 {
      Build16(mask, s, h, shift, inverse);
    } else if w == 32 {
      Build32(mask, s, h, shift, inverse);
    } else if w == 64 {
      Build64(mask, s, h, shift, inverse);
    } else {
      Build128(mask, s, h, shift, inverse);
    }
  }

  lemma {:induction false} PixelAt(before: seq<u8>, s: Sources, w: nat, shift: nat, inverse: bool, h: nat, r: nat,
                                   c: nat)
    requires s.Readable(w, h) && Fits(|before|, 0, w, w, h) && r < h && c < w
    ensures Offset(r, w) + c < |before| && Offset(r, s.stride0) + c < |s.src0| && Offset(r, s.stride1) + c < |s.src1|
    ensures
      PutRows(before, 0, w, w, MaskBlock(s, w, shift, inverse, h))[Offset(r, w) + c]
      == MaskOf(s.src0[Offset(r, s.stride0) + c], s.src1[Offset(r, s.stride1) + c], shift, inverse)
  {
    BlockRow(s, w, shift, inverse, h, r);
    PutRowsAt(before, 0, w, w, MaskBlock(s, w, shift, inverse, h), r, c);
    hide Offset, PutRows, MaskBlock, MaskOf, Fits;
  }

  // The mask in numbers: the weight is the rounded difference in sixteenths, from 38 up to 64, or its complement.
  lemma {:induction false} MaskIs(x: u16, y: u16, shift: nat, inverse: bool)
    ensures
      var difference := if x < y then y - x else x - y;
      var weight := Min(64, 38 + (difference + Pow2(shift) / 2) / Pow2(shift) / 16);
      && MaskOf(x, y, shift, inverse) == (if inverse then 64 - weight else weight) && 38 <= weight <= 64
      && (x == y ==> weight == 38)
  {
    DownDivides(Distance(x, y) + Half(shift), shift);
    Quotient(Pow2(shift) / 2, Pow2(shift), 0, Pow2(shift) / 2);
    hide Down, Pow2;
  }

  // The block at every pixel: row-major, x and y its two predictions, and their weight or the complement of that.
  lemma {:induction false} MaskAt(before: seq<u8>, s: Sources, w: nat, shift: nat, inverse: bool, h: nat, r: nat,
                                  c: nat, x: u16, y: u16, weight: nat)
    requires s.Readable(w, h) && Fits(|before|, 0, w, w, h) && r < h && c < w
    requires x == s.src0[Offset(r, s.stride0) + c] && y == s.src1[Offset(r, s.stride1) + c]
    requires weight == Min(64, 38 + ((if x < y then y - x else x - y) + Pow2(shift) / 2) / Pow2(shift) / 16)
    ensures Offset(r, w) + c < |before|
    ensures
      var m := PutRows(before, 0, w, w, MaskBlock(s, w, shift, inverse, h))[Offset(r, w) + c];
      && m == (if inverse then 64 - weight else weight) && 38 <= weight <= 64
      && (x == y ==> m == if inverse then 26 else 38)
  {
    PixelAt(before, s, w, shift, inverse, h, r, c);
    MaskIs(x, y, shift, inverse);
    hide Offset, PutRows, MaskBlock, MaskOf, Min, Fits, Pow2, Sources.Readable;
  }

  // A mask that fills its buffer can be blended with: no entry is above 64.
  lemma {:induction false} BuiltIsMask(before: seq<u8>, s: Sources, w: nat, shift: nat, inverse: bool, h: nat)
    requires w > 0 && h > 0 && s.Readable(w, h) && |before| == Offset(h, w) && Fits(|before|, 0, w, w, h)
    ensures IsMask(PutRows(before, 0, w, w, MaskBlock(s, w, shift, inverse, h)))
  {
    hide PutRows, MaskBlock, Weight, Fits, Sources.Readable;
    var mask := PutRows(before, 0, w, w, MaskBlock(s, w, shift, inverse, h));
    forall i | 0 <= i < |mask|
      ensures mask[i] <= MAX_ALPHA
    {
      var r, c := i / w, i % w;
      assert i == r * w + c;
      if r >= h { MulMonotone(h, r, w); }
      PixelAt(before, s, w, shift, inverse, h, r, c);
      assert Offset(r, w) == r * w;
    }
  }
}
