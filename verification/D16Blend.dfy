/** Blending two predictions of the compound convolutions under a mask, back to pixels. */
module D16Blend {
  import opened Arithmetic
  import opened MachineInts
  import opened MaskWeights
  import opened Plane
  import opened Shifts
  import opened Simd
  import opened MaskBlend

  // ----- one pixel -----

  // The rounding of the convolutions before: roundBits is 2 * 7 - round_0 - round_1.
  datatype Rounding = Rounding(roundBits: nat, bd: nat) {
    ghost predicate Valid() { 1 <= roundBits <= 8 && (bd == 8 || bd == 10 || bd == 12) }

    // The offset the predictions carry.
    function Offset(): nat
      requires Valid()
    {
      Pow2(roundBits + bd) + Pow2(roundBits + bd - 1)
    }

    function MaxPixel(): nat { Pow2(bd) - 1 }

    // What the vector code subtracts at once, and how far it shifts.
    function OffsetScaled(): int
      requires Valid()
    {
      (Offset() - Pow2(roundBits - 1)) * 64
    }

    function Shift(): nat { roundBits + ROUND_BITS }

    // Where signed products start to show: past 2 to the power 15, and past what the offset clips to zero anyway.
    function SignedLimit(): int
      requires Valid()
    {
      Max(0x8000, Offset() + Pow2(roundBits - 1))
    }
  }

  function Weighted(m: u8, x: u16, y: u16): int { m * x + (MAX_ALPHA - m) * y }

  // The scalar definition: weight, shift, remove the offset, round, clip.
  function BlendedD16(m: u8, x: u16, y: u16, r: Rounding): (d: u16)
    requires r.Valid()
    ensures d <= r.MaxPixel()
  {
    OffsetBounds(r);
    var res := Sra(Weighted(m, x, y), ROUND_BITS) - r.Offset();
    Clamp(RoundPowerOfTwo(res, r.roundBits), 0, r.MaxPixel())
  }

  // One shift instead of two.
  function BlendedOnce(m: u8, x: u16, y: u16, r: Rounding): int
    requires r.Valid()
  {
    Clamp(Sra(Weighted(m, x, y) - r.OffsetScaled(), r.Shift()), 0, r.MaxPixel())
  }

  lemma {:induction false} OneShift(m: u8, x: u16, y: u16, r: Rounding)
    requires r.Valid()
    ensures BlendedOnce(m, x, y, r) == BlendedD16(m, x, y, r)
  {
    hide Sra, Weighted, Pow2;
    OneShiftOf(Weighted(m, x, y), r.Offset(), r.roundBits);
  }

  lemma {:induction false} OneShiftOf(sum: int, offset: int, bits: nat)
    requires bits > 0
    ensures Sra(sum - (offset - Pow2(bits - 1)) * 64, bits + ROUND_BITS)
        == RoundPowerOfTwo(Sra(sum, ROUND_BITS) - offset, bits)
  {
    var k := offset - Pow2(bits - 1);
    assert Pow2(6) == 64;
    SraLess(sum, k, 6);
    SraTwice(sum - k * 64, 6, bits);
    assert Pow2(bits) / 2 == Pow2(bits - 1);
    hide Sra;
  }

  // ----- the lanes -----

  // Products from their halves, summed, offset, shifted, packed and clipped, all in lanes.
  function HighLane(m: u16, x: u16, y: u16, offset: u32, shift: nat, high: u16): u16 {
    var n := SubLane(MAX_ALPHA, m);
    var p0, p1 := Dword(MulloLane(m, x), MulhiLane(m, x)), Dword(MulloLane(n, y), MulhiLane(n, y));
    MinSignedLane(MaxSignedLane(PackDword(SraLane(SubDword(AddDword(p0, p1), offset), shift)), 0), high)
  }

  // The form for eight bits: signed products, two packs.
  function LowLane(m: u16, x: u16, y: u16, offset: u32, shift: nat): u8 {
    var n := SubLane(MAX_ALPHA, m);
    PackLane(PackDword(SraLane(SubDword(MaddLane(x, m, y, n), offset), shift)))
  }

  // The exact product from its two halves.
  lemma {:induction false} ProductLane(m: u16, x: u16)
    ensures Dword(MulloLane(m, x), MulhiLane(m, x)) == m * x
  {
    ProductBound(m, x);
    HalvesOf(m * x);
    hide LowWord, HighWord;
  }

  lemma {:induction false} ProductBound(m: u16, x: u16)
    ensures 0 <= m * x <= 0xFFFF * 0xFFFF
  {
    MulMonotone(0, m, x);
    MulMonotone(m, 0xFFFF, x);
  }

  lemma {:induction false} HalvesOf(v: int)
    requires 0 <= v <= 0xFFFF * 0xFFFF
    ensures Dword(LowWord(v), HighWord(v)) == v
  {
  }

  lemma {:induction false} WeightedBound(m: u8, x: u16, y: u16)
    requires m <= MAX_ALPHA
    ensures 0 <= m * x && 0 <= (MAX_ALPHA - m) * y && Weighted(m, x, y) <= 64 * 0xFFFF
  {
    MulMonotone(0, m, x);
    MulMonotone(0, MAX_ALPHA - m, y);
    MulMonotone(x, 0xFFFF, m);
    MulMonotone(y, 0xFFFF, MAX_ALPHA - m);
  }

  // After subtracting an offset a small difference is back as a signed number.
  lemma {:induction false} SignedDifference(sum: int, offset: u32)
    requires -0x4000_0000 <= sum - offset && sum < 0x4000_0000 && offset < 0x4000_0000
    ensures S32(SubDword(W32(sum), offset)) == sum - offset
  {
  }

  // The sums, the offset and the shift in 32-bit lanes.
  lemma {:induction false} ShiftedLane(sum: int, offset: u32, shift: nat)
    requires -0x4000_0000 <= sum - offset && sum < 0x4000_0000 && offset < 0x4000_0000
    ensures PackDword(SraLane(SubDword(W32(sum), offset), shift)) == SatS16(Sra(sum - offset, shift))
  {
    hide SatS16, S32, W32, SubDword, Sra;
    SignedDifference(sum, offset);
    SraBounds(sum - offset, shift);
    SignedStored(Sra(sum - offset, shift));
  }

  lemma {:induction false} HighLaneExact(m: u8, x: u16, y: u16, offset: u32, shift: nat, high: u16)
    requires m <= MAX_ALPHA && offset < 0x4000_0000 && high < 0x8000
    ensures HighLane(m, x, y, offset, shift, high) == Clamp(Sra(Weighted(m, x, y) - offset, shift), 0, high)
  {
    hide PackDword, SraLane, SubDword, Sra, SatS16, MinSignedLane, MaxSignedLane, MulloLane, MulhiLane, Dword, SubLane,
        AddDword, W32;
    SmallLanes(MAX_ALPHA, m);
    ProductLane(m, x);
    ProductLane(MAX_ALPHA - m, y);
    WeightedBound(m, x, y);
    DwordsAdd(m * x, (MAX_ALPHA - m) * y);
    Stored32(Weighted(m, x, y));
    ShiftedLane(Weighted(m, x, y), offset, shift);
    PackThenClip(Sra(Weighted(m, x, y) - offset, shift), high);
  }

  // The eight-bit form agrees while the predictions stay below 2 to the power 15.
  lemma {:induction false} LowLaneExact(m: u8, x: u16, y: u16, offset: u32, shift: nat)
    requires m <= MAX_ALPHA && offset < 0x4000_0000 && x < 0x8000 && y < 0x8000
    ensures LowLane(m, x, y, offset, shift) == Clamp(Sra(Weighted(m, x, y) - offset, shift), 0, 0xFF)
  {
    hide PackDword, SraLane, SubDword, Sra, SatS16, SubLane, W32, S16, PairSum;
    SmallLanes(MAX_ALPHA, m);
    SmallLanes(m, 0);
    SmallLanes(MAX_ALPHA - m, 0);
    SmallLanes(x, 0);
    SmallLanes(y, 0);
    WeightedBound(m, x, y);
    SumIsWeighted(m, x, y);
    ShiftedLane(Weighted(m, x, y), offset, shift);
    var v := Sra(Weighted(m, x, y) - offset, shift);
    PackTwice(v);
  }

  lemma {:induction false} SumIsWeighted(m: u8, x: u16, y: u16)
    requires m <= MAX_ALPHA
    ensures PairSum(x, m, y, MAX_ALPHA - m) == Weighted(m, x, y) && 0 <= Weighted(m, x, y) <= 64 * 0xFFFF
    ensures W32(Weighted(m, x, y)) == Weighted(m, x, y)
  {
    WeightedBound(m, x, y);
    hide W32;
    Stored32(Weighted(m, x, y));
  }

  lemma {:induction false} PackTwice(v: int)
    ensures PackLane(SatS16(v)) == Clamp(v, 0, 0xFF)
  {
    PackedSigned(Clamp(v, -0x8000, 0x7FFF));
    assert SatS16(v) == SatS16(Clamp(v, -0x8000, 0x7FFF));
    hide SatS16, S16;
  }

  // What the signed products add up to.
  function SignedWeighted(m: u8, x: u16, y: u16): int { m * S16(x) + (MAX_ALPHA - m) * S16(y) }

  lemma {:induction false} SignedBound(m: u8, x: u16, y: u16)
    requires m <= MAX_ALPHA
    ensures -0x20_0000 <= SignedWeighted(m, x, y) <= 0x20_0000 && SignedWeighted(m, x, y) <= Weighted(m, x, y)
  {
    var n := MAX_ALPHA - m;
    MulMonotone(-0x8000, S16(x), m);
    MulMonotone(S16(x), 0x8000, m);
    MulMonotone(-0x8000, S16(y), n);
    MulMonotone(S16(y), 0x8000, n);
    MulMonotone(S16(x), x, m);
    MulMonotone(S16(y), y, n);
  }

  // The eight-bit form is exact for predictions read as signed words, whatever they are.
  lemma {:induction false} LowLaneReadsSigned(m: u8, x: u16, y: u16, offset: u32, shift: nat)
    requires m <= MAX_ALPHA && offset < 0x2000_0000
    ensures LowLane(m, x, y, offset, shift) == Clamp(Sra(SignedWeighted(m, x, y) - offset, shift), 0, 0xFF)
  {
    hide PackDword, SraLane, SubDword, Sra, SatS16, SubLane, W32, S16, SignedWeighted;
    SmallLanes(MAX_ALPHA, m);
    SmallLanes(m, 0);
    SmallLanes(MAX_ALPHA - m, 0);
    SignedBound(m, x, y);
    SignedSum(m, x, y);
    ShiftedLane(SignedWeighted(m, x, y), offset, shift);
    PackTwice(Sra(SignedWeighted(m, x, y) - offset, shift));
  }

  lemma {:induction false} SignedSum(m: u8, x: u16, y: u16)
    requires m <= MAX_ALPHA
    ensures PairSum(S16(x), m, S16(y), MAX_ALPHA - m) == SignedWeighted(m, x, y)
  {
  }

  lemma {:induction false} ShiftSign(v: int, n: nat)
    ensures Sra(v, n) >= 1 <==> v >= Pow2(n)
  {
    hide Sra, Pow2;
    SraDivides(v, n);
    var p := Pow2(n);
    var q, r := v / p, v % p;
    assert v == q * p + r;
    if q >= 1 {
      MulAtLeast(q, p);
    } else {
      MulMonotone(q, 0, p);
    }
  }

  // A whole number of sixty-fourths past the offset is what one unit of the result takes.
  lemma {:induction false} FirstUnit(r: Rounding)
    requires r.Valid()
    ensures r.OffsetScaled() + Pow2(r.Shift()) == 64 * (r.Offset() + Pow2(r.roundBits - 1))
    ensures 0 <= r.OffsetScaled() < 0x2000_0000
  {
    hide Rounding.Offset, Pow2;
    OffsetBounds(r);
    PowAdds(r.roundBits);
    hide Rounding.OffsetScaled;
    OffsetBelow(r);
  }

  lemma {:induction false} PowAdds(n: nat)
    ensures Pow2(n + 6) == 64 * Pow2(n) && (n > 0 ==> Pow2(n) == 2 * Pow2(n - 1))
  {
    assert Pow2(n + 6) == 2 * Pow2(n + 5) && Pow2(n + 5) == 2 * Pow2(n + 4) && Pow2(n + 4) == 2 * Pow2(n + 3);
    assert Pow2(n + 3) == 2 * Pow2(n + 2) && Pow2(n + 2) == 2 * Pow2(n + 1) && Pow2(n + 1) == 2 * Pow2(n);
  }

  lemma {:induction false} OffsetBelow(r: Rounding)
    requires r.Valid()
    ensures r.OffsetScaled() < 0x2000_0000
  {
    hide Pow2;
    PowGrows(r.roundBits + r.bd, 20);
    PowGrows(r.roundBits + r.bd - 1, 20);
    PowersAt();
  }

  // A result is nothing unless one of the predictions reaches past the offset.
  lemma {:induction false} Swallowed(m: u8, x: u16, y: u16, r: Rounding)
    requires m <= MAX_ALPHA && r.Valid() && Max(x, y) < r.Offset() + Pow2(r.roundBits - 1)
    ensures Weighted(m, x, y) < r.OffsetScaled() + Pow2(r.Shift())
  {
    hide Rounding.Offset, Rounding.OffsetScaled, Rounding.Shift, Pow2;
    FirstUnit(r);
    MulMonotone(x, Max(x, y), m);
    MulMonotone(y, Max(x, y), MAX_ALPHA - m);
    assert m * Max(x, y) + (MAX_ALPHA - m) * Max(x, y) == 64 * Max(x, y);
  }

  // Below the limit the eight-bit form is the scalar definition.
  lemma {:induction false} LowLaneBelow(m: u8, x: u16, y: u16, r: Rounding)
    requires m <= MAX_ALPHA && r.Valid() && r.bd == 8 && Max(x, y) < r.SignedLimit()
    ensures 0 <= r.OffsetScaled() < 0x2000_0000
    ensures LowLane(m, x, y, r.OffsetScaled(), r.Shift()) == BlendedD16(m, x, y, r)
  {
    hide LowLane, Weighted, SignedWeighted, Sra, BlendedD16, Rounding.OffsetScaled, Rounding.Shift, Rounding.Offset,
        Pow2;
    FirstUnit(r);
    OneShift(m, x, y, r);
    EightBits(r);
    var offset, shift := r.OffsetScaled(), r.Shift();
    if Max(x, y) < 0x8000 {
      LowLaneExact(m, x, y, offset, shift);
    } else {
      LowLaneReadsSigned(m, x, y, offset, shift);
      Swallowed(m, x, y, r);
      SignedBound(m, x, y);
      ShiftSign(Weighted(m, x, y) - offset, shift);
      ShiftSign(SignedWeighted(m, x, y) - offset, shift);
    }
  }

  lemma {:induction false} EightBits(r: Rounding)
    requires r.bd == 8
    ensures r.MaxPixel() == 0xFF
  {
    PowersAt();
  }

  // From the limit on, the prediction alone comes out as 0 where the scalar definition gives at least 1.
  lemma {:induction false} LowLaneBeyond(x: u16, y: u16, r: Rounding)
    requires r.Valid() && r.bd == 8 && Max(x, y) >= r.SignedLimit()
    ensures 0 <= r.OffsetScaled() < 0x2000_0000
    ensures exists m: u8 ::
      m <= MAX_ALPHA && LowLane(m, x, y, r.OffsetScaled(), r.Shift()) == 0 < BlendedD16(m, x, y, r)
  {
    hide LowLane, Sra, BlendedD16, Rounding.OffsetScaled, Rounding.Shift, Rounding.Offset, Pow2;
    FirstUnit(r);
    EightBits(r);
    var offset, shift := r.OffsetScaled(), r.Shift();
    var m: u8 := if x < y then 0 else MAX_ALPHA;
    assert Weighted(m, x, y) == 64 * Max(x, y) && SignedWeighted(m, x, y) == 64 * Max(x, y) - 64 * 0x1_0000;
    OneShift(m, x, y, r);
    LowLaneReadsSigned(m, x, y, offset, shift);
    ShiftSign(Weighted(m, x, y) - offset, shift);
    ShiftSign(SignedWeighted(m, x, y) - offset, shift);
  }

  /** The eight-bit form is the scalar definition under every weight exactly for predictions below the limit. */
  lemma {:induction false} LowLaneExactWhen(x: u16, y: u16, r: Rounding)
    requires r.Valid() && r.bd == 8
    ensures 0 <= r.OffsetScaled() < 0x2000_0000
    ensures
      (forall m: u8 :: m <= MAX_ALPHA ==> LowLane(m, x, y, r.OffsetScaled(), r.Shift()) == BlendedD16(m, x, y, r))
      <==> Max(x, y) < r.SignedLimit()
  {
    hide LowLane, BlendedD16, Rounding.OffsetScaled, Rounding.Shift, Rounding.SignedLimit;
    FirstUnit(r);
    if Max(x, y) < r.SignedLimit() {
      forall m: u8 | m <= MAX_ALPHA
        ensures LowLane(m, x, y, r.OffsetScaled(), r.Shift()) == BlendedD16(m, x, y, r)
      {
        LowLaneBelow(m, x, y, r);
      }
    } else {
      LowLaneBeyond(x, y, r);
    }
  }

  // The limit is 2 to the power 15 up to six rounding bits, 49216 for seven, and out of reach for eight.
  lemma {:induction false} SignedLimits(r: Rounding)
    requires r.Valid() && r.bd == 8
    ensures r.roundBits <= 6 ==> r.SignedLimit() == 0x8000
    ensures r.roundBits == 7 ==> r.SignedLimit() == 49216
    ensures r.roundBits == 8 ==> r.SignedLimit() > 0xFFFF
  {
    hide Pow2;
    PowersAt();
    PowAdds(6);
    PowAdds(7);
    PowAdds(8);
    SmallPowers();
    if r.roundBits <= 6 {
      PowGrows(r.roundBits - 1, 5);
      PowGrows(r.roundBits + 8, 14);
      PowGrows(r.roundBits + 7, 13);
    }
  }

  lemma {:induction false} SmallPowers()
    ensures Pow2(5) == 32 && Pow2(6) == 64 && Pow2(7) == 128 && Pow2(13) == 0x2000 && Pow2(14) == 0x4000
        && Pow2(15) == 0x8000 && Pow2(16) == 0x1_0000
  {
  }

  // With the rounding of eight-bit compound prediction, 2 to the power 15 comes out as 0 instead of 255.
  lemma {:induction false} LowLaneSigned()
    ensures
      var r := Rounding(4, 8);
      r.Valid() && r.OffsetScaled() == 392704 && r.Shift() == 10
      && LowLane(64, 0x8000, 0, r.OffsetScaled(), r.Shift()) == 0 && BlendedD16(64, 0x8000, 0, r) == 0xFF
  {
    var r := Rounding(4, 8);
    assert Pow2(3) == 8 && Pow2(11) == 0x800 && Pow2(12) == 0x1000;
    hide Pow2, LowLane, BlendedD16, Sra;
    OneShift(64, 0x8000, 0, r);
    LowLaneReadsSigned(64, 0x8000, 0, 392704, 10);
    TenDown();
    EightBits(r);
  }

  lemma {:induction false} TenDown()
    ensures Sra(64 * 0x8000 - 392704, 10) == 1664 && Sra(64 * -0x8000 - 392704, 10) == -2432
  {
  }

  // ----- registers -----

  // Sixteen pixels of the high bit depth form.
  function High16(mask0: seq<u16>, s0: seq<u16>, s1: seq<u16>, offset: u32, shift: nat, high: u16): (r: seq<u16>)
    requires |mask0| == |s0| == |s1| == 16
    ensures |r| == 16
  {
    var mask1 := SubEpi16(Set1(MAX_ALPHA, 16), mask0);
    var lows0, highs0 := MulloEpi16(mask0, s0), MulhiEpu16(mask0, s0);
    var lows1, highs1 := MulloEpi16(mask1, s1), MulhiEpu16(mask1, s1);
    var sumh := AddEpi32(AsDwords(UnpackHi256(lows0, highs0)), AsDwords(UnpackHi256(lows1, highs1)));
    var suml := AddEpi32(AsDwords(UnpackLo256(lows0, highs0)), AsDwords(UnpackLo256(lows1, highs1)));
    var roundh := SraiEpi32(SubEpi32(sumh, Set1(offset, 8)), shift);
    var roundl := SraiEpi32(SubEpi32(suml, Set1(offset, 8)), shift);
    MinEpi16(MaxEpi16(PacksEpi32(roundl, roundh), Set1(0, 16)), Set1(high, 16))
  }

  // Sixteen pixels of the eight-bit form, before the second pack.
  function Low16(mask0: seq<u16>, s0: seq<u16>, s1: seq<u16>, offset: u32, shift: nat): (r: seq<u16>)
    requires |mask0| == |s0| == |s1| == 16
    ensures |r| == 16
  {
    var mask1 := SubEpi16(Set1(MAX_ALPHA, 16), mask0);
    var lo := MaddEpi16(UnpackLo256(s0, s1), UnpackLo256(mask0, mask1));
    var hi := MaddEpi16(UnpackHi256(s0, s1), UnpackHi256(mask0, mask1));
    PacksEpi32(SraiEpi32(SubEpi32(lo, Set1(offset, 8)), shift), SraiEpi32(SubEpi32(hi, Set1(offset, 8)), shift))
  }

  // Both registers of products, four lanes a quarter.
  lemma {:induction false} ProductsAt(lows: seq<u16>, highs: seq<u16>, i: nat)
    requires |lows| == |highs| == 16 && i < 4
    ensures var lo := AsDwords(UnpackLo256(lows, highs));
        lo[i] == Dword(lows[i], highs[i])
        && lo[4 + i] == Dword(lows[8 + i], highs[8 + i])
    ensures var hi := AsDwords(UnpackHi256(lows, highs));
        hi[i] == Dword(lows[4 + i], highs[4 + i])
        && hi[4 + i] == Dword(lows[12 + i], highs[12 + i])
  {
    hide Dword, UnpackLo256, UnpackHi256;
    UnpackedWordsAt(lows, highs, i);
  }

  lemma {:induction false} High16At(mask0: seq<u16>, s0: seq<u16>, s1: seq<u16>, offset: u32, shift: nat, high: u16,
                                    i: nat)
    requires |mask0| == |s0| == |s1| == 16 && i < 16
    ensures High16(mask0, s0, s1, offset, shift, high)[i] == HighLane(mask0[i], s0[i], s1[i], offset, shift, high)
  {
    hide Dword, UnpackLo256, UnpackHi256, AsDwords, PacksEpi32, PackDword, SraLane, SubDword, AddDword, MulloLane,
        MulhiLane,
      MinSignedLane, MaxSignedLane, SubLane;
    var mask1 := SubEpi16(Set1(MAX_ALPHA, 16), mask0);
    var lows0, highs0 := MulloEpi16(mask0, s0), MulhiEpu16(mask0, s0);
    var lows1, highs1 := MulloEpi16(mask1, s1), MulhiEpu16(mask1, s1);
    ProductsAt(lows0, highs0, i % 4);
    ProductsAt(lows1, highs1, i % 4);
    var sumh := AddEpi32(AsDwords(UnpackHi256(lows0, highs0)), AsDwords(UnpackHi256(lows1, highs1)));
    var suml := AddEpi32(AsDwords(UnpackLo256(lows0, highs0)), AsDwords(UnpackLo256(lows1, highs1)));
    PackedDwordsAt(SraiEpi32(SubEpi32(suml, Set1(offset, 8)), shift),
                   SraiEpi32(SubEpi32(sumh, Set1(offset, 8)), shift), i % 4);
  }

  lemma {:induction false} Low16At(mask0: seq<u16>, s0: seq<u16>, s1: seq<u16>, offset: u32, shift: nat, i: nat)
    requires |mask0| == |s0| == |s1| == 16 && i < 16
    ensures PackLane(Low16(mask0, s0, s1, offset, shift)[i]) == LowLane(mask0[i], s0[i], s1[i], offset, shift)
  {
    hide UnpackLo256, UnpackHi256, PacksEpi32, PackDword, SraLane, SubDword, MaddLane, SubLane, PackLane;
    var mask1 := SubEpi16(Set1(MAX_ALPHA, 16), mask0);
    UnpackedWordsAt(s0, s1, i % 4);
    UnpackedWordsAt(mask0, mask1, i % 4);
    var lo := MaddEpi16(UnpackLo256(s0, s1), UnpackLo256(mask0, mask1));
    var hi := MaddEpi16(UnpackHi256(s0, s1), UnpackHi256(mask0, mask1));
    PackedDwordsAt(SraiEpi32(SubEpi32(lo, Set1(offset, 8)), shift), SraiEpi32(SubEpi32(hi, Set1(offset, 8)), shift),
                   i % 4);
  }

  // ----- the weights in sixteen-bit lanes -----

  // Averages of two columns, or of two columns of two rows, in words; 32 mask bytes each.
  function PairedWeights(sub: Subsampling, top: seq<u8>, bottom: seq<u8>): (m: seq<u16>)
    requires sub.x && |top| == |bottom| == 32
    ensures |m| == 16
  {
    if sub.y then SrliEpi16(AddEpi16(MaddubsEpi16(AddsEpu8(top, bottom), Set1(1, 32)), Set1(2, 16)), 2)
    else AvgEpu16(MaddubsEpi16(top, Set1(1, 32)), Set1(0, 16))
  }

  // One entry, or the average of two rows, in bytes.
  function PlainWeights(sub: Subsampling, top: seq<u8>, bottom: seq<u8>): (m: seq<u8>)
    requires |top| == |bottom|
    ensures |m| == |top|
  {
    if sub.y then AvgEpu8(AddsEpu8(top, bottom), Set1(0, |top|)) else top
  }

  // Sixteen weights from the entries they average.
  function WordWeights(sub: Subsampling, top: seq<u8>, bottom: seq<u8>): (m: seq<u16>)
    requires |top| == |bottom| == sub.Span(16)
    ensures |m| == 16
  {
    if sub.x then PairedWeights(sub, top, bottom) else CvtEpu8Epi16Wide(PlainWeights(sub, top, bottom))
  }

  // No addition of entries saturates.
  lemma {:induction false} EntrySums(a: u8, b: u8, c: u8, d: u8)
    requires a <= MAX_ALPHA && b <= MAX_ALPHA && c <= MAX_ALPHA && d <= MAX_ALPHA
    ensures AddsByte(a, c) == a + c && AddsByte(b, d) == b + d
    ensures ShiftLane(AddWord(MaddubsLane(a + c, 1, b + d, 1), 2), 2) == Quarter4(a, b, c, d)
    ensures AvgWord(MaddubsLane(a, 1, b, 1), 0) == AvgByte(a, b) && AvgByte(a + c, 0) == AvgByte(a, c)
  {
    hide MaddubsLane, ShiftLane, AddWord;
    MaddubsOnes(a + c, b + d);
    MaddubsOnes(a, b);
    ShiftTwo(a + b + c + d);
  }

  lemma {:induction false} MaddubsOnes(x: u8, y: u8)
    ensures MaddubsLane(x, 1, y, 1) == x + y
  {
    SmallLanes(x + y, 0);
    hide SatS16;
  }

  lemma {:induction false} ShiftTwo(v: u16)
    requires v <= 0x100
    ensures ShiftLane(AddWord(v, 2), 2) == (v + 2) / 4
  {
    assert AddWord(v, 2) == v + 2;
    assert Down(v + 2, 2) == Down((v + 2) / 2, 1) == (v + 2) / 2 / 2;
  }

  lemma {:induction false} WordWeightsAt(sub: Subsampling, top: seq<u8>, bottom: seq<u8>, i: nat)
    requires |top| == |bottom| == sub.Span(16) && i < 16 && IsMask(top) && IsMask(bottom)
    ensures WordWeights(sub, top, bottom)[i] == WeightAt(sub, top, bottom, i) <= MAX_ALPHA
  {
    hide AddsByte, MaddubsLane, ShiftLane, AddWord, Quarter4, AvgWord;
    WeightBounds(sub, top, bottom, i);
    if sub.x {
      EntrySums(top[2 * i], top[2 * i + 1], bottom[2 * i], bottom[2 * i + 1]);
    } else {
      EntrySums(top[i], top[i], bottom[i], bottom[i]);
    }
  }

  // ----- pixels in sequence -----

  ghost predicate Blendable(sub: Subsampling, top: seq<u8>, bottom: seq<u8>, x: seq<u16>, y: seq<u16>) {
    |x| == |y| && |top| == |bottom| == sub.Span(|x|) && IsMask(top) && IsMask(bottom)
  }

  // The scalar blend of consecutive pixels.
  ghost function BlendSeq(sub: Subsampling, top: seq<u8>, bottom: seq<u8>, x: seq<u16>, y: seq<u16>,
                          r: Rounding): (d: seq<u16>)
    requires Blendable(sub, top, bottom, x, y) && r.Valid()
    ensures |d| == |x|
  {
    seq(|x|, i requires 0 <= i < |x| => BlendedD16(WeightAt(sub, top, bottom, i), x[i], y[i], r))
  }

  lemma {:induction false} BlendSeqConcat(sub: Subsampling, top: seq<u8>, bottom: seq<u8>, x: seq<u16>, y: seq<u16>,
                                          top2: seq<u8>, bottom2: seq<u8>, x2: seq<u16>, y2: seq<u16>, r: Rounding)
    requires Blendable(sub, top, bottom, x, y) && Blendable(sub, top2, bottom2, x2, y2) && r.Valid()
    ensures Blendable(sub, top + top2, bottom + bottom2, x + x2, y + y2)
    ensures BlendSeq(sub, top + top2, bottom + bottom2, x + x2, y + y2, r)
         == BlendSeq(sub, top, bottom, x, y, r) + BlendSeq(sub, top2, bottom2, x2, y2, r)
  {
    hide BlendedD16, Quarter4, AvgByte;
  }

  lemma {:induction false} OffsetBounds(r: Rounding)
    requires r.Valid()
    ensures 0 <= r.OffsetScaled() < 0x4000_0000 && 0xFF <= r.MaxPixel() < 0x8000
  {
    hide Pow2;
    PowGrows(r.roundBits + r.bd, 20);
    PowGrows(r.roundBits - 1, r.roundBits + r.bd);
    PowGrows(r.roundBits + r.bd - 1, 20);
    PowGrows(8, r.bd);
    PowGrows(r.bd, 12);
    PowersAt();
  }

  lemma {:induction false} PowersAt()
    ensures Pow2(20) == 0x10_0000 && Pow2(12) == 0x1000 && Pow2(8) == 0x100
  {
  }

  // Sixteen pixels of the high bit depth form: exactly the scalar definition.
  lemma {:induction false} HighRegister(sub: Subsampling, top: seq<u8>, bottom: seq<u8>, x: seq<u16>, y: seq<u16>,
                                        r: Rounding)
    requires Blendable(sub, top, bottom, x, y) && |x| == 16 && r.Valid()
    ensures 0 <= r.OffsetScaled() < 0x4000_0000 && 0xFF <= r.MaxPixel() < 0x8000
    ensures High16(WordWeights(sub, top, bottom), x, y, r.OffsetScaled(), r.Shift(), r.MaxPixel())
        == BlendSeq(sub, top, bottom, x, y, r)
  {
    OffsetBounds(r);
    hide High16, WordWeights, BlendedD16, WeightAt, IsMask;
    forall i | 0 <= i < 16
      ensures High16(WordWeights(sub, top, bottom), x, y, r.OffsetScaled(), r.Shift(), r.MaxPixel())[i]
          == BlendSeq(sub, top, bottom, x, y, r)[i]
    {
      HighPixel(sub, top, bottom, x, y, r, i);
    }
  }

  lemma {:induction false} HighPixel(sub: Subsampling, top: seq<u8>, bottom: seq<u8>, x: seq<u16>, y: seq<u16>,
                                     r: Rounding, i: nat)
    requires Blendable(sub, top, bottom, x, y) && |x| == 16 && r.Valid() && i < 16
    requires 0 <= r.OffsetScaled() < 0x4000_0000 && 0xFF <= r.MaxPixel() < 0x8000
    ensures High16(WordWeights(sub, top, bottom), x, y, r.OffsetScaled(), r.Shift(), r.MaxPixel())[i]
         == BlendedD16(WeightAt(sub, top, bottom, i), x[i], y[i], r)
  {
    hide High16, WordWeights, HighLane, WeightAt, Weighted, Sra, BlendedD16, Rounding.OffsetScaled, Rounding.MaxPixel,
        Rounding.Valid;
    var m := WeightAt(sub, top, bottom, i);
    WordWeightsAt(sub, top, bottom, i);
    High16At(WordWeights(sub, top, bottom), x, y, r.OffsetScaled(), r.Shift(), r.MaxPixel(), i);
    HighLaneExact(m, x[i], y[i], r.OffsetScaled(), r.Shift(), r.MaxPixel());
    OneShift(m, x[i], y[i], r);
  }

  ghost predicate Below(limit: int, x: seq<u16>) {
    forall i :: 0 <= i < |x| ==> x[i] < limit
  }

  // Sixteen pixels of the eight-bit form, for predictions below the limit.
  lemma {:induction false} LowRegister(sub: Subsampling, top: seq<u8>, bottom: seq<u8>, x: seq<u16>, y: seq<u16>,
                                       r: Rounding)
    requires Blendable(sub, top, bottom, x, y) && |x| == 16 && r.Valid() && r.bd == 8 && Below(r.SignedLimit(), x)
        && Below(r.SignedLimit(), y)
    ensures 0 <= r.OffsetScaled() < 0x4000_0000
    ensures Packed(Low16(WordWeights(sub, top, bottom), x, y, r.OffsetScaled(), r.Shift()))
        == BlendSeq(sub, top, bottom, x, y, r)
  {
    OffsetBounds(r);
    hide Low16, WordWeights, BlendedD16, WeightAt, IsMask, PackLane;
    forall i | 0 <= i < 16
      ensures Packed(Low16(WordWeights(sub, top, bottom), x, y, r.OffsetScaled(), r.Shift()))[i]
          == BlendSeq(sub, top, bottom, x, y, r)[i]
    {
      LowPixel(sub, top, bottom, x, y, r, i);
    }
  }

  lemma {:induction false} LowPixel(sub: Subsampling, top: seq<u8>, bottom: seq<u8>, x: seq<u16>, y: seq<u16>,
                                    r: Rounding, i: nat)
    requires Blendable(sub, top, bottom, x, y) && |x| == 16 && r.Valid() && r.bd == 8 && i < 16
        && Below(r.SignedLimit(), x) && Below(r.SignedLimit(), y)
    requires 0 <= r.OffsetScaled() < 0x4000_0000
    ensures PackLane(Low16(WordWeights(sub, top, bottom), x, y, r.OffsetScaled(), r.Shift())[i])
         == BlendedD16(WeightAt(sub, top, bottom, i), x[i], y[i], r)
  {
    hide Low16, WordWeights, LowLane, WeightAt, BlendedD16, Rounding.OffsetScaled, Rounding.SignedLimit, PackLane;
    var m := WeightAt(sub, top, bottom, i);
    WordWeightsAt(sub, top, bottom, i);
    Low16At(WordWeights(sub, top, bottom), x, y, r.OffsetScaled(), r.Shift(), i);
    LowLaneBelow(m, x[i], y[i], r);
  }

  // ----- blocks -----

  datatype Predictions = Predictions(src0: seq<u16>, stride0: nat, src1: seq<u16>, stride1: nat, mask: seq<u8>,
                                     maskStride: nat) {
    ghost predicate Valid(sub: Subsampling, w: nat, h: nat) {
      && Readable(|src0|, stride0, w, h) && Readable(|src1|, stride1, w, h) && IsMask(mask)
      && forall r :: 0 <= r < h ==> MaskOffset(sub, r) + Further(sub) + sub.Span(w) <= |mask|
    }

    ghost function MaskOffset(sub: Subsampling, r: nat): nat { Offset(r, MaskStep(sub)) }

    function MaskStep(sub: Subsampling): nat { if sub.y then 2 * maskStride else maskStride }

    function Further(sub: Subsampling): nat { if sub.y then maskStride else 0 }

    // n pixels can be read at these places.
    ghost predicate Has(sub: Subsampling, n: nat, at0: nat, at1: nat, atMask: nat) {
      at0 + n <= |src0| && at1 + n <= |src1| && atMask + Further(sub) + sub.Span(n) <= |mask| && IsMask(mask)
    }
  }

  // What a call needs in memory: both sources and the mask up to the end of their last rows.
  lemma {:induction false} ValidWhen(p: Predictions, sub: Subsampling, w: nat, h: nat)
    requires h > 0
    ensures
      p.Valid(sub, w, h) <==>
        && Offset(h - 1, p.stride0) + w <= |p.src0| && Offset(h - 1, p.stride1) + w <= |p.src1|
        && Offset(h - 1, if sub.y then 2 * p.maskStride else p.maskStride) + (if sub.y then p.maskStride else 0)
           + (if sub.x then 2 * w else w) <= |p.mask|
        && forall i :: 0 <= i < |p.mask| ==> p.mask[i] <= 64
  {
    hide Offset, Readable;
    ReadableWhen(|p.src0|, p.stride0, w, h);
    ReadableWhen(|p.src1|, p.stride1, w, h);
    var step := if sub.y then 2 * p.maskStride else p.maskStride;
    forall r | 0 <= r < h
      ensures Offset(r, step) <= Offset(h - 1, step)
    {
      if r < h - 1 { OffsetsApart(r, h - 1, step); }
    }
    assert p.MaskOffset(sub, h - 1) == Offset(h - 1, step);
  }

  ghost function RowD16(p: Predictions, sub: Subsampling, n: nat, at0: nat, at1: nat, atMask: nat,
                        r: Rounding): (row: seq<u16>)
    requires p.Has(sub, n, at0, at1, atMask) && r.Valid()
    ensures |row| == n
  {
    BlendSeq(sub, Load(p.mask, atMask, sub.Span(n)), Load(p.mask, atMask + p.Further(sub), sub.Span(n)),
             Load(p.src0, at0, n), Load(p.src1, at1, n), r)
  }

  ghost function BlockD16(p: Predictions, sub: Subsampling, w: nat, h: nat, r: Rounding): (rows: seq<seq<u16>>)
    requires p.Valid(sub, w, h) && r.Valid()
    ensures |rows| == h && IsBlock(rows, w)
  {
    seq(h, i requires 0 <= i < h => RowD16(p, sub, w, Offset(i, p.stride0), Offset(i, p.stride1), p.MaskOffset(sub, i),
                                           r))
  }

  lemma {:induction false} BlockRowD16(p: Predictions, sub: Subsampling, w: nat, h: nat, r: Rounding, i: nat)
    requires p.Valid(sub, w, h) && r.Valid() && i < h
    ensures p.Has(sub, w, Offset(i, p.stride0), Offset(i, p.stride1), p.MaskOffset(sub, i))
    ensures BlockD16(p, sub, w, h, r)[i] == RowD16(p, sub, w, Offset(i, p.stride0), Offset(i, p.stride1),
                                                   p.MaskOffset(sub, i), r)
    ensures Offset(i + 1, p.stride0) == Offset(i, p.stride0) + p.stride0
        && Offset(i + 1, p.stride1) == Offset(i, p.stride1) + p.stride1
    ensures p.MaskOffset(sub, i + 1) == p.MaskOffset(sub, i) + p.MaskStep(sub)
  {
    OffsetNext(i, p.stride0);
    OffsetNext(i, p.stride1);
    OffsetNext(i, p.MaskStep(sub));
    hide Offset, RowD16, IsMask;
  }

  lemma {:induction false} StartD16(p: Predictions, sub: Subsampling)
    ensures Offset(0, p.stride0) == 0 && Offset(0, p.stride1) == 0 && p.MaskOffset(sub, 0) == 0
  {
  }

  lemma {:induction false} RowPixelD16(p: Predictions, sub: Subsampling, w: nat, at0: nat, at1: nat, atMask: nat,
                                       r: Rounding, c: nat)
    requires p.Has(sub, w, at0, at1, atMask) && r.Valid() && c < w
    ensures atMask + p.Further(sub) + sub.Span(c + 1) <= |p.mask|
    ensures RowD16(p, sub, w, at0, at1, atMask, r)[c]
         == BlendedD16(EntryWeight(p.mask, p.Further(sub), sub, atMask, c), p.src0[at0 + c], p.src1[at1 + c], r)
  {
    hide BlendedD16, EntryWeight, WeightAt, Load;
    EntryLoaded(p.mask, p.Further(sub), sub, w, atMask, c);
    LoadAt(p.src0, at0, w, c);
    LoadAt(p.src1, at1, w, c);
  }

  // A piece of a row is the row of that piece.
  lemma {:induction false} PieceD16(p: Predictions, sub: Subsampling, w: nat, at0: nat, at1: nat, atMask: nat,
                                    r: Rounding, c: nat, n: nat)
    requires p.Has(sub, w, at0, at1, atMask) && r.Valid() && c + n <= w
    ensures p.Has(sub, n, at0 + c, at1 + c, atMask + sub.Span(c))
    ensures RowD16(p, sub, w, at0, at1, atMask, r)[c..c + n]
        == RowD16(p, sub, n, at0 + c, at1 + c, atMask + sub.Span(c), r)
  {
    hide BlendedD16, EntryWeight, RowD16, IsMask;
    var row, piece := RowD16(p, sub, w, at0, at1, atMask, r),
        RowD16(p, sub, n, at0 + c, at1 + c, atMask + sub.Span(c), r);
    forall i | 0 <= i < n
      ensures row[c..c + n][i] == piece[i]
    {
      RowPixelD16(p, sub, w, at0, at1, atMask, r, c + i);
      RowPixelD16(p, sub, n, at0 + c, at1 + c, atMask + sub.Span(c), r, i);
      EntryShifted(p.mask, p.Further(sub), sub, atMask, c, i);
    }
  }

  // The same for eight bits, where pixels are bytes.
  ghost function RowBytes(p: Predictions, sub: Subsampling, n: nat, at0: nat, at1: nat, atMask: nat,
                          r: Rounding): (row: seq<u8>)
    requires p.Has(sub, n, at0, at1, atMask) && r.Valid() && r.bd == 8
    ensures |row| == n && row == RowD16(p, sub, n, at0, at1, atMask, r)
  {
    PowersAt();
    RowD16(p, sub, n, at0, at1, atMask, r)
  }

  ghost function BlockBytes(p: Predictions, sub: Subsampling, w: nat, h: nat, r: Rounding): (rows: seq<seq<u8>>)
    requires p.Valid(sub, w, h) && r.Valid() && r.bd == 8
    ensures |rows| == h && IsBlock(rows, w)
    ensures forall i :: 0 <= i < h ==> rows[i] == BlockD16(p, sub, w, h, r)[i]
  {
    seq(h, i requires 0 <= i < h => RowBytes(p, sub, w, Offset(i, p.stride0), Offset(i, p.stride1),
                                             p.MaskOffset(sub, i), r))
  }

  lemma {:induction false} RowLoaded(p: Predictions, sub: Subsampling, n: nat, at0: nat, at1: nat, atMask: nat,
                                     r: Rounding)
    requires p.Has(sub, n, at0, at1, atMask) && r.Valid()
    ensures
      var top, bottom := Load(p.mask, atMask, sub.Span(n)), Load(p.mask, atMask + p.Further(sub), sub.Span(n));
      var x, y := Load(p.src0, at0, n), Load(p.src1, at1, n);
      Blendable(sub, top, bottom, x, y) && RowD16(p, sub, n, at0, at1, atMask, r) == BlendSeq(sub, top, bottom, x, y, r)
  {
    hide BlendedD16, WeightAt;
  }

  // A store of sixteen pixels of the high bit depth form.
  method High16Pixels(p: Predictions, sub: Subsampling, at0: nat, at1: nat, atMask: nat, r: Rounding)
    returns (row: seq<u16>)
    requires p.Has(sub, 16, at0, at1, atMask) && r.Valid()
    ensures row == RowD16(p, sub, 16, at0, at1, atMask, r)
  {
    hide High16, WordWeights, BlendSeq, RowD16, Load, IsMask, Rounding.OffsetScaled, Rounding.MaxPixel, Rounding.Valid;
    RowLoaded(p, sub, 16, at0, at1, atMask, r);
    var top, bottom := Load(p.mask, atMask, sub.Span(16)), Load(p.mask, atMask + p.Further(sub), sub.Span(16));
    var x, y := Load(p.src0, at0, 16), Load(p.src1, at1, 16);
    HighRegister(sub, top, bottom, x, y, r);
    row := High16(WordWeights(sub, top, bottom), x, y, r.OffsetScaled(), r.Shift(), r.MaxPixel());
  }

  // Thirty-two pixels of the eight-bit form.
  method Low32Pixels(p: Predictions, sub: Subsampling, at0: nat, at1: nat, atMask: nat, r: Rounding)
    returns (row: seq<u8>)
    requires p.Has(sub, 32, at0, at1, atMask) && r.Valid() && r.bd == 8 && Below(r.SignedLimit(), p.src0)
        && Below(r.SignedLimit(), p.src1)
    ensures row == RowD16(p, sub, 32, at0, at1, atMask, r)
  {
    hide Rounding.SignedLimit, Low16, WordWeights, Rounding.OffsetScaled, PackusEpi16, Permute4x64, PackLane, RowD16;
    PieceD16(p, sub, 32, at0, at1, atMask, r, 0, 16);
    PieceD16(p, sub, 32, at0, at1, atMask, r, 16, 16);
    var n := sub.Span(16);
    var top0, bottom0 := Load(p.mask, atMask, n), Load(p.mask, atMask + p.Further(sub), n);
    var top1, bottom1 := Load(p.mask, atMask + n, n), Load(p.mask, atMask + n + p.Further(sub), n);
    var x0, x1 := Load(p.src0, at0, 16), Load(p.src0, at0 + 16, 16);
    var y0, y1 := Load(p.src1, at1, 16), Load(p.src1, at1 + 16, 16);
    LowRow(p, sub, at0, at1, atMask, r);
    LowRow(p, sub, at0 + 16, at1 + 16, atMask + n, r);
    var res0 := Low16(WordWeights(sub, top0, bottom0), x0, y0, r.OffsetScaled(), r.Shift());
    var res1 := Low16(WordWeights(sub, top1, bottom1), x1, y1, r.OffsetScaled(), r.Shift());
    PackInOrder(res0, res1);
    row := Permute4x64(PackusEpi16(res0, res1), 0, 2, 1, 3);
  }

  lemma {:induction false} LowRow(p: Predictions, sub: Subsampling, at0: nat, at1: nat, atMask: nat, r: Rounding)
    requires p.Has(sub, 16, at0, at1, atMask) && r.Valid() && r.bd == 8 && Below(r.SignedLimit(), p.src0)
        && Below(r.SignedLimit(), p.src1)
    ensures 0 <= r.OffsetScaled() < 0x4000_0000
    ensures
      var top, bottom := Load(p.mask, atMask, sub.Span(16)), Load(p.mask, atMask + p.Further(sub), sub.Span(16));
      var x, y := Load(p.src0, at0, 16), Load(p.src1, at1, 16);
      Packed(Low16(WordWeights(sub, top, bottom), x, y, r.OffsetScaled(), r.Shift()))
          == RowD16(p, sub, 16, at0, at1, atMask, r)
  {
    hide Rounding.SignedLimit, Low16, WordWeights, Rounding.OffsetScaled, PackLane;
    LowRegister(sub, Load(p.mask, atMask, sub.Span(16)), Load(p.mask, atMask + p.Further(sub), sub.Span(16)),
                Load(p.src0, at0, 16), Load(p.src1, at1, 16), r);
  }

  // Sixteen pixels of the eight-bit form.
  method Low16Pixels(p: Predictions, sub: Subsampling, at0: nat, at1: nat, atMask: nat, r: Rounding)
    returns (row: seq<u8>)
    requires p.Has(sub, 16, at0, at1, atMask) && r.Valid() && r.bd == 8 && Below(r.SignedLimit(), p.src0)
        && Below(r.SignedLimit(), p.src1)
    ensures row == RowD16(p, sub, 16, at0, at1, atMask, r)
  {
    hide Rounding.SignedLimit, Low16, WordWeights, Rounding.OffsetScaled, PackusEpi16, Permute4x64, PackLane, RowD16;
    LowRow(p, sub, at0, at1, atMask, r);
    var top, bottom := Load(p.mask, atMask, sub.Span(16)), Load(p.mask, atMask + p.Further(sub), sub.Span(16));
    var x, y := Load(p.src0, at0, 16), Load(p.src1, at1, 16);
    var res0 := Low16(WordWeights(sub, top, bottom), x, y, r.OffsetScaled(), r.Shift());
    PackInOrder(res0, res0);
    row := Permute4x64(PackusEpi16(res0, res0), 0, 2, 1, 3)[..16];
  }

  // ----- the eight-bit form -----

  // A row: one store of 16 pixels, or stores of 32.
  method LowRowPixels(dst: array<u8>, at: nat, p: Predictions, sub: Subsampling, w: nat, at0: nat, at1: nat,
                      atMask: nat, r: Rounding)
    requires (w == 16 || w % 32 == 0) && at + w <= dst.Length && p.Has(sub, w, at0, at1, atMask)
    requires r.Valid() && r.bd == 8 && Below(r.SignedLimit(), p.src0) && Below(r.SignedLimit(), p.src1)
    modifies dst
    ensures dst[..] == Put(old(dst[..]), at, RowBytes(p, sub, w, at0, at1, atMask, r))
  {
    hide Rounding.SignedLimit, Rounding.OffsetScaled, Put, RowBytes, RowD16, Below;
    if w == 16 {
      var row := Low16Pixels(p, sub, at0, at1, atMask, r);
      Store(dst, at, row);
    } else {
      ghost var before, row := dst[..], RowBytes(p, sub, w, at0, at1, atMask, r);
      PutMore(before, at, row, 0, 0);
      var j := 0;
      while j < w
        invariant 0 <= j <= w && j % 32 == 0 && dst[..] == Put(before, at, row[..j])
      {
        PieceD16(p, sub, w, at0, at1, atMask, r, j, 32);
        PutMore(before, at, row, j, 32);
        var piece := Low32Pixels(p, sub, at0 + j, at1 + j, atMask + sub.Span(j), r);
        Store(dst, at + j, piece);
        j := j + 32;
      }
    }
  }

  // svt_aom_lowbd_blend_a64_d16_mask_avx2, the widths from 16 on
  method BlendLowDepth(dst: array<u8>, dstStride: nat, p: Predictions, sub: Subsampling, w: nat, h: nat, r: Rounding)
    requires w in {16, 32, 64, 128} && h >= 4 && p.Valid(sub, w, h) && Fits(dst.Length, 0, dstStride, w, h)
    requires r.Valid() && r.bd == 8 && Below(r.SignedLimit(), p.src0) && Below(r.SignedLimit(), p.src1)
    modifies dst
    ensures dst[..] == PutRows(old(dst[..]), 0, dstStride, w, BlockBytes(p, sub, w, h, r))
  {
    hide Rounding.SignedLimit, Offset, Put, PutRows, Written, BlockBytes, BlockD16, RowBytes, RowD16,
        Predictions.Valid, Predictions.MaskOffset, Below;
    ghost var before, rows := dst[..], BlockBytes(p, sub, w, h, r);
    WrittenNone(before, 0, dstStride, w, rows);
    StartD16(p, sub);
    var at, at0, at1, atMask := 0, 0, 0, 0;
    for i := 0 to h
      invariant at == Offset(i, dstStride) && at0 == Offset(i, p.stride0) && at1 == Offset(i, p.stride1)
          && atMask == p.MaskOffset(sub, i)
      invariant Written(dst[..], before, 0, dstStride, w, rows, i)
    {
      BlockRowD16(p, sub, w, h, r, i);
      WrittenNext(dst[..], before, 0, dstStride, w, rows, i);
      LowRowPixels(dst, at, p, sub, w, at0, at1, atMask, r);
      at, at0, at1, atMask := at + dstStride, at0 + p.stride0, at1 + p.stride1, atMask + p.MaskStep(sub);
    }
    WrittenAll(dst[..], before, 0, dstStride, w, rows);
  }

  // ----- the high bit depth form -----

  // Two rows of a multiple of 16 pixels, piece by piece in turn.
  method HighTwoRows(dst: array<u16>, at: nat, further: nat, p: Predictions, sub: Subsampling, w: nat, at0: nat,
                     at1: nat, atMask: nat, r: Rounding)
    requires w % 16 == 0 && at + w <= further && further + w <= dst.Length && r.Valid()
    requires p.Has(sub, w, at0, at1, atMask)
        && p.Has(sub, w, at0 + p.stride0, at1 + p.stride1, atMask + p.MaskStep(sub))
    modifies dst
    ensures dst[..] == Put(Put(old(dst[..]), at, RowD16(p, sub, w, at0, at1, atMask, r)), further,
                           RowD16(p, sub, w, at0 + p.stride0, at1 + p.stride1, atMask + p.MaskStep(sub), r))
  {
    hide Put, RowD16;
    ghost var before := dst[..];
    ghost var a := RowD16(p, sub, w, at0, at1, atMask, r);
    ghost var b := RowD16(p, sub, w, at0 + p.stride0, at1 + p.stride1, atMask + p.MaskStep(sub), r);
    PutMore(before, at, a, 0, 0);
    PutMore(before, further, b, 0, 0);
    var j := 0;
    while j < w
      invariant 0 <= j <= w && j % 16 == 0 && dst[..] == Put(Put(before, at, a[..j]), further, b[..j])
    {
      PieceD16(p, sub, w, at0, at1, atMask, r, j, 16);
      PieceD16(p, sub, w, at0 + p.stride0, at1 + p.stride1, atMask + p.MaskStep(sub), r, j, 16);
      TwoMore(before, at, a, further, b, j, 16);
      var rowA := High16Pixels(p, sub, at0 + j, at1 + j, atMask + sub.Span(j), r);
      var rowB := High16Pixels(p, sub, at0 + p.stride0 + j, at1 + p.stride1 + j,
                               atMask + p.MaskStep(sub) + sub.Span(j), r);
      Store(dst, at + j, rowA);
      Store(dst, further + j, rowB);
      j := j + 16;
    }
    PutMore(before, at, a, 0, 0);
    PutMore(before, further, b, 0, 0);
  }

  // Where a row of pixels and its mask entries start.
  datatype Place = Place(at0: nat, at1: nat, atMask: nat)

  ghost predicate HasAt(p: Predictions, sub: Subsampling, n: nat, a: Place) { p.Has(sub, n, a.at0, a.at1, a.atMask) }

  ghost function RowOf(p: Predictions, sub: Subsampling, n: nat, a: Place, r: Rounding): (row: seq<u16>)
    requires HasAt(p, sub, n, a) && r.Valid()
    ensures |row| == n
  {
    RowD16(p, sub, n, a.at0, a.at1, a.atMask, r)
  }

  function Top(p: Predictions, sub: Subsampling, n: nat, a: Place): (m: seq<u8>)
    requires a.atMask + p.Further(sub) + sub.Span(n) <= |p.mask|
    ensures |m| == sub.Span(n)
  {
    Load(p.mask, a.atMask, sub.Span(n))
  }

  function Bottom(p: Predictions, sub: Subsampling, n: nat, a: Place): (m: seq<u8>)
    requires a.atMask + p.Further(sub) + sub.Span(n) <= |p.mask|
    ensures |m| == sub.Span(n)
  {
    Load(p.mask, a.atMask + p.Further(sub), sub.Span(n))
  }

  // Two rows of eight pixels in one register, the first in its low half.
  lemma {:induction false} TwoRowsSeq(p: Predictions, sub: Subsampling, n: nat, a: Place, b: Place, r: Rounding)
    requires HasAt(p, sub, n, a) && HasAt(p, sub, n, b) && r.Valid()
    ensures Blendable(sub, Top(p, sub, n, a) + Top(p, sub, n, b), Bottom(p, sub, n, a) + Bottom(p, sub, n, b),
                      Load(p.src0, a.at0, n) + Load(p.src0, b.at0, n), Load(p.src1, a.at1, n) + Load(p.src1, b.at1, n))
    ensures BlendSeq(sub, Top(p, sub, n, a) + Top(p, sub, n, b), Bottom(p, sub, n, a) + Bottom(p, sub, n, b),
                     Load(p.src0, a.at0, n) + Load(p.src0, b.at0, n), Load(p.src1, a.at1, n) + Load(p.src1, b.at1, n),
                         r)
         == RowOf(p, sub, n, a, r) + RowOf(p, sub, n, b, r)
  {
    hide BlendSeq;
    BlendSeqConcat(sub, Top(p, sub, n, a), Bottom(p, sub, n, a), Load(p.src0, a.at0, n), Load(p.src1, a.at1, n),
                   Top(p, sub, n, b), Bottom(p, sub, n, b), Load(p.src0, b.at0, n), Load(p.src1, b.at1, n), r);
  }

  method HighPair(p: Predictions, sub: Subsampling, a: Place, b: Place, r: Rounding) returns (rows: seq<u16>)
    requires HasAt(p, sub, 8, a) && HasAt(p, sub, 8, b) && r.Valid()
    ensures rows == RowOf(p, sub, 8, a, r) + RowOf(p, sub, 8, b, r)
  {
    hide High16, WordWeights, Rounding.OffsetScaled, Rounding.MaxPixel, BlendSeq, RowOf;
    TwoRowsSeq(p, sub, 8, a, b, r);
    var top, bottom := Top(p, sub, 8, a) + Top(p, sub, 8, b), Bottom(p, sub, 8, a) + Bottom(p, sub, 8, b);
    var x, y := SetM128i(Load(p.src0, b.at0, 8), Load(p.src0, a.at0, 8)),
        SetM128i(Load(p.src1, b.at1, 8), Load(p.src1, a.at1, 8));
    HighRegister(sub, top, bottom, x, y, r);
    rows := High16(WordWeights(sub, top, bottom), x, y, r.OffsetScaled(), r.Shift(), r.MaxPixel());
  }

  // Four rows of four pixels in one register.
  method HighQuad(p: Predictions, sub: Subsampling, a: Place, b: Place, c: Place, d: Place, r: Rounding)
    returns (rows: seq<u16>)
    requires HasAt(p, sub, 4, a) && HasAt(p, sub, 4, b) && HasAt(p, sub, 4, c) && HasAt(p, sub, 4, d) && r.Valid()
    ensures rows == RowOf(p, sub, 4, a, r) + RowOf(p, sub, 4, b, r) + (RowOf(p, sub, 4, c, r) + RowOf(p, sub, 4, d, r))
  {
    hide High16, WordWeights, Rounding.OffsetScaled, Rounding.MaxPixel, BlendSeq, RowOf, Top, Bottom;
    TwoRowsSeq(p, sub, 4, a, b, r);
    TwoRowsSeq(p, sub, 4, c, d, r);
    var top0, top1 := Top(p, sub, 4, a) + Top(p, sub, 4, b), Top(p, sub, 4, c) + Top(p, sub, 4, d);
    var bottom0, bottom1 := Bottom(p, sub, 4, a) + Bottom(p, sub, 4, b), Bottom(p, sub, 4, c) + Bottom(p, sub, 4, d);
    var x0, x1 := Load(p.src0, a.at0, 4) + Load(p.src0, b.at0, 4), Load(p.src0, c.at0, 4) + Load(p.src0, d.at0, 4);
    var y0, y1 := Load(p.src1, a.at1, 4) + Load(p.src1, b.at1, 4), Load(p.src1, c.at1, 4) + Load(p.src1, d.at1, 4);
    BlendSeqConcat(sub, top0, bottom0, x0, y0, top1, bottom1, x1, y1, r);
    HighRegister(sub, top0 + top1, bottom0 + bottom1, x0 + x1, y0 + y1, r);
    rows := High16(WordWeights(sub, top0 + top1, bottom0 + bottom1), x0 + x1, y0 + y1, r.OffsetScaled(), r.Shift(),
                   r.MaxPixel());
  }

  function PlaceOf(p: Predictions, sub: Subsampling, a: Place, k: nat): Place {
    Place(a.at0 + k * p.stride0, a.at1 + k * p.stride1, a.atMask + k * p.MaskStep(sub))
  }

  // Row i of the block starts at the place reached after i steps.
  ghost predicate AtRow(p: Predictions, sub: Subsampling, i: nat, a: Place) {
    a == Place(Offset(i, p.stride0), Offset(i, p.stride1), p.MaskOffset(sub, i))
  }

  lemma {:induction false} RowsFrom(p: Predictions, sub: Subsampling, w: nat, h: nat, r: Rounding, i: nat, a: Place)
    requires p.Valid(sub, w, h) && r.Valid() && i < h && AtRow(p, sub, i, a)
    ensures HasAt(p, sub, w, a) && BlockD16(p, sub, w, h, r)[i] == RowOf(p, sub, w, a, r)
        && AtRow(p, sub, i + 1, PlaceOf(p, sub, a, 1))
  {
    BlockRowD16(p, sub, w, h, r, i);
    hide Offset, BlockD16, RowD16, Predictions.Has;
  }

  lemma {:induction false} FourFrom(p: Predictions, sub: Subsampling, w: nat, h: nat, r: Rounding, i: nat, a: Place)
    requires p.Valid(sub, w, h) && r.Valid() && i + 4 <= h && AtRow(p, sub, i, a)
    ensures forall k :: 0 <= k < 4 ==> HasAt(p, sub, w, PlaceOf(p, sub, a, k))
    ensures forall k :: 0 <= k < 4 ==> BlockD16(p, sub, w, h, r)[i + k] == RowOf(p, sub, w, PlaceOf(p, sub, a, k), r)
    ensures AtRow(p, sub, i + 4, PlaceOf(p, sub, a, 4))
  {
    hide AtRow, BlockD16, RowOf, HasAt, Predictions.Valid;
    assert PlaceOf(p, sub, a, 0) == a;
    NextPlace(p, sub, a, 0);
    NextPlace(p, sub, a, 1);
    NextPlace(p, sub, a, 2);
    NextPlace(p, sub, a, 3);
    hide PlaceOf;
    RowsFrom(p, sub, w, h, r, i, a);
    RowsFrom(p, sub, w, h, r, i + 1, PlaceOf(p, sub, a, 1));
    RowsFrom(p, sub, w, h, r, i + 2, PlaceOf(p, sub, a, 2));
    RowsFrom(p, sub, w, h, r, i + 3, PlaceOf(p, sub, a, 3));
  }

  lemma {:induction false} NextPlace(p: Predictions, sub: Subsampling, a: Place, k: nat)
    ensures PlaceOf(p, sub, PlaceOf(p, sub, a, k), 1) == PlaceOf(p, sub, a, k + 1)
  {
  }

  // Widths 4 and 8, four rows a time; the four stores do not overlap.
  method HighNarrow(dst: array<u16>, dstStride: nat, p: Predictions, sub: Subsampling, w: nat, h: nat, r: Rounding)
    requires (w == 4 || w == 8) && h > 0 && h % 4 == 0 && sub.x == sub.y
    requires p.Valid(sub, w, h) && Fits(dst.Length, 0, dstStride, w, h) && r.Valid()
    modifies dst
    ensures dst[..] == PutRows(old(dst[..]), 0, dstStride, w, BlockD16(p, sub, w, h, r))
  {
    hide Offset, Put, PutRows, Written, BlockD16, RowOf, Predictions.Valid, AtRow, HasAt;
    ghost var before, rows := dst[..], BlockD16(p, sub, w, h, r);
    WrittenNone(before, 0, dstStride, w, rows);
    var at, a, i := 0, Place(0, 0, 0), 0;
    assert AtRow(p, sub, 0, a) by { StartPlace(p, sub); }
    while i < h
      invariant 0 <= i <= h && i % 4 == 0 && at == Offset(i, dstStride) && AtRow(p, sub, i, a)
      invariant Written(dst[..], before, 0, dstStride, w, rows, i)
    {
      FourFrom(p, sub, w, h, r, i, a);
      var r0, r1, r2, r3 := FourRows(p, sub, w, a, r);
      WrittenNext(dst[..], before, 0, dstStride, w, rows, i);
      Store(dst, at, r0);
      WrittenNext(dst[..], before, 0, dstStride, w, rows, i + 1);
      Store(dst, at + dstStride, r1);
      WrittenNext(dst[..], before, 0, dstStride, w, rows, i + 2);
      Store(dst, at + 2 * dstStride, r2);
      WrittenNext(dst[..], before, 0, dstStride, w, rows, i + 3);
      Store(dst, at + 3 * dstStride, r3);
      at, a, i := at + 4 * dstStride, PlaceOf(p, sub, a, 4), i + 4;
    }
    WrittenAll(dst[..], before, 0, dstStride, w, rows);
  }

  lemma {:induction false} StartPlace(p: Predictions, sub: Subsampling)
    ensures AtRow(p, sub, 0, Place(0, 0, 0))
  {
  }

  method FourRows(p: Predictions, sub: Subsampling, w: nat, a: Place, r: Rounding)
    returns (r0: seq<u16>, r1: seq<u16>, r2: seq<u16>, r3: seq<u16>)
    requires (w == 4 || w == 8) && r.Valid() && forall k :: 0 <= k < 4 ==> HasAt(p, sub, w, PlaceOf(p, sub, a, k))
    ensures r0 == RowOf(p, sub, w, PlaceOf(p, sub, a, 0), r) && r1 == RowOf(p, sub, w, PlaceOf(p, sub, a, 1), r)
    ensures r2 == RowOf(p, sub, w, PlaceOf(p, sub, a, 2), r) && r3 == RowOf(p, sub, w, PlaceOf(p, sub, a, 3), r)
  {
    hide RowOf, HasAt, PlaceOf;
    if w == 4 {
      var rows := HighQuad(p, sub, PlaceOf(p, sub, a, 0), PlaceOf(p, sub, a, 1), PlaceOf(p, sub, a, 2),
                           PlaceOf(p, sub, a, 3), r);
      r0, r1, r2, r3 := rows[..4], rows[4..8], rows[8..12], rows[12..];
    } else {
      var rows := HighPair(p, sub, PlaceOf(p, sub, a, 1), PlaceOf(p, sub, a, 0), r);
      r1, r0 := rows[..8], rows[8..];
      rows := HighPair(p, sub, PlaceOf(p, sub, a, 3), PlaceOf(p, sub, a, 2), r);
      r3, r2 := rows[..8], rows[8..];
    }
  }

  // Widths from 16 on, two rows a time.
  method HighWide(dst: array<u16>, dstStride: nat, p: Predictions, sub: Subsampling, w: nat, h: nat, r: Rounding)
    requires (w == 16 || w == 32 || w == 64 || w == 128) && h > 0 && h % 4 == 0 && sub.x == sub.y
    requires p.Valid(sub, w, h) && Fits(dst.Length, 0, dstStride, w, h) && r.Valid()
    modifies dst
    ensures dst[..] == PutRows(old(dst[..]), 0, dstStride, w, BlockD16(p, sub, w, h, r))
  {
    hide Offset, Put, PutRows, Written, BlockD16, RowD16, Predictions.Valid, Predictions.MaskOffset, Predictions.Has,
         Predictions.MaskStep, Rounding.Valid, Fits;
    ghost var before, rows := dst[..], BlockD16(p, sub, w, h, r);
    WrittenNone(before, 0, dstStride, w, rows);
    StartD16(p, sub);
    var at, at0, at1, atMask, i := 0, 0, 0, 0, 0;
    while i < h
      invariant 0 <= i <= h && i % 2 == 0
      invariant at == Offset(i, dstStride) && at0 == Offset(i, p.stride0) && at1 == Offset(i, p.stride1)
          && atMask == p.MaskOffset(sub, i)
      invariant Written(dst[..], before, 0, dstStride, w, rows, i)
    {
      BlockRowD16(p, sub, w, h, r, i);
      BlockRowD16(p, sub, w, h, r, i + 1);
      WrittenNext(dst[..], before, 0, dstStride, w, rows, i);
      WrittenNext(Put(dst[..], at, rows[i]), before, 0, dstStride, w, rows, i + 1);
      WrittenWidth(dst[..], before, 0, dstStride, w, rows, i);
      HighTwoRows(dst, at, at + dstStride, p, sub, w, at0, at1, atMask, r);
      at, at0, at1 := at + 2 * dstStride, at0 + 2 * p.stride0, at1 + 2 * p.stride1;
      atMask, i := atMask + 2 * p.MaskStep(sub), i + 2;
    }
    WrittenAll(dst[..], before, 0, dstStride, w, rows);
  }

  // svt_aom_highbd_blend_a64_d16_mask_avx2, where it does not fall back to the C version
  method BlendHighDepth(dst: array<u16>, dstStride: nat, p: Predictions, sub: Subsampling, w: nat, h: nat, r: Rounding)
    requires (w == 4 || w == 8 || w == 16 || w == 32 || w == 64 || w == 128) && h > 0 && h % 4 == 0 && sub.x == sub.y
    requires p.Valid(sub, w, h) && Fits(dst.Length, 0, dstStride, w, h) && r.Valid()
    modifies dst
    ensures dst[..] == PutRows(old(dst[..]), 0, dstStride, w, BlockD16(p, sub, w, h, r))
  {
    hide Fits, PutRows, BlockD16, Predictions.Valid, Rounding.Valid;
    if w <= 8 {
      HighNarrow(dst, dstStride, p, sub, w, h, r);
    } else {
      HighWide(dst, dstStride, p, sub, w, h, r);
    }
  }

  lemma {:induction false} SumDivided(m: u8, x: u16, y: u16)
    ensures Sra(Weighted(m, x, y), ROUND_BITS) == (m * x + (64 - m) * y) / 64
  {
    assert Pow2(6) == 64;
    SraDivides(Weighted(m, x, y), 6);
    hide Sra;
  }

  // The scalar blend in numbers: the weighted sum divided by 64, less the offset, divided by 2^roundBits with halves
  // rounded up, and clipped to the bit depth.
  lemma {:induction false} BlendedIs(m: u8, x: u16, y: u16, r: Rounding, sum: int, offset: nat)
    requires r.Valid() && sum == (m * x + (64 - m) * y) / 64
    requires offset == Pow2(r.roundBits + r.bd) + Pow2(r.roundBits + r.bd - 1)
    ensures
      BlendedD16(m, x, y, r)
      == Max(0, Min((sum - offset + Pow2(r.roundBits) / 2) / Pow2(r.roundBits), Pow2(r.bd) - 1))
  {
    hide Sra, Pow2, Weighted, RoundPowerOfTwo;
    OffsetBounds(r);
    SumDivided(m, x, y);
    RoundDivides(sum - offset, r.roundBits);
  }

  lemma {:induction false} WeightIs(p: Predictions, sub: Subsampling, i: nat, c: nat, q: nat)
    requires p.MaskOffset(sub, i) + p.Further(sub) + sub.Span(c + 1) <= |p.mask|
    requires q == Offset(i, if sub.y then 2 * p.maskStride else p.maskStride) + if sub.x then 2 * c else c
    ensures q + (if sub.y then p.maskStride else 0) + (if sub.x then 1 else 0) < |p.mask|
    ensures
      var m: nat := EntryWeight(p.mask, p.Further(sub), sub, p.MaskOffset(sub, i), c);
      var mask: seq<nat>, s := p.mask, p.maskStride;
      if sub.x && sub.y then m == (mask[q] + mask[q + 1] + mask[q + s] + mask[q + s + 1] + 2) / 4
      else if sub.x then m == (mask[q] + mask[q + 1] + 1) / 2
      else if sub.y then m == (mask[q] + mask[q + s] + 1) / 2
      else m == mask[q]
  {
    hide Offset;
  }

  // Every pixel is the scalar blend of its two predictions with its averaged weight.
  lemma {:induction false} BlendD16At(before: seq<u16>, dstStride: nat, p: Predictions, sub: Subsampling, w: nat,
                                      h: nat, r: Rounding, i: nat, c: nat)
    requires p.Valid(sub, w, h) && Fits(|before|, 0, dstStride, w, h) && r.Valid() && i < h && c < w
    ensures Offset(i, dstStride) + c < |before| && Offset(i, p.stride0) + c < |p.src0|
        && Offset(i, p.stride1) + c < |p.src1|
    ensures p.MaskOffset(sub, i) + p.Further(sub) + sub.Span(c + 1) <= |p.mask|
    ensures
      var m := EntryWeight(p.mask, p.Further(sub), sub, p.MaskOffset(sub, i), c);
      PutRows(before, 0, dstStride, w, BlockD16(p, sub, w, h, r))[Offset(i, dstStride) + c]
      == BlendedD16(m, p.src0[Offset(i, p.stride0) + c], p.src1[Offset(i, p.stride1) + c], r)
  {
    hide Offset, PutRows, BlockD16, Fits, Predictions.Valid, Predictions.MaskOffset, EntryWeight, RowD16, IsMask,
        BlendedD16;
    BlockRowD16(p, sub, w, h, r, i);
    PutRowsAt(before, 0, dstStride, w, BlockD16(p, sub, w, h, r), i, c);
    RowPixelD16(p, sub, w, Offset(i, p.stride0), Offset(i, p.stride1), p.MaskOffset(sub, i), r, c);
  }
}
