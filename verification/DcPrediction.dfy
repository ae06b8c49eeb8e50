/** DC prediction of high bit depth blocks: the rounded mean of the neighbours, from sums in 16-bit lanes. */
module DcPrediction {
  import opened Arithmetic
  import opened Lanes
  import opened MachineInts
  import opened Plane
  import opened Shifts
  import opened Simd

  // ----- the mean -----

  function Mean(pixels: seq<nat>): nat
    requires pixels != []
  {
    (Total(pixels) + |pixels| / 2) / |pixels|
  }

  lemma {:induction false} OneMore(v: nat, n: nat)
    ensures v * (n + 1) == v * n + v
  {
  }

  lemma {:induction false} TotalBetween(pixels: seq<nat>, low: nat, high: nat)
    requires forall i :: 0 <= i < |pixels| ==> low <= pixels[i] <= high
    ensures low * |pixels| <= Total(pixels) <= high * |pixels|
    decreases |pixels|
  {
    if pixels != [] {
      TotalBetween(pixels[1..], low, high);
      OneMore(low, |pixels[1..]|);
      OneMore(high, |pixels[1..]|);
    }
  }

  // The rounded mean lies between the smallest and the largest neighbour.
  lemma {:induction false} MeanBetween(pixels: seq<nat>, low: nat, high: nat)
    requires pixels != [] && forall i :: 0 <= i < |pixels| ==> low <= pixels[i] <= high
    ensures low <= Mean(pixels) <= high
  {
    TotalBetween(pixels, low, high);
    RoundedBetween(Total(pixels), |pixels|, low, high);
  }

  lemma {:induction false} RoundedBetween(t: nat, n: nat, low: nat, high: nat)
    requires n > 0 && low * n <= t <= high * n
    ensures low <= (t + n / 2) / n <= high
  {
    var s := t + n / 2;
    var q, r := s / n, s % n;
    assert s == q * n + r;
    assert (q + 1) * n == q * n + n && (high + 1) * n == high * n + n;
    if q < low {
      MulMonotone(q + 1, low, n);
    } else if q > high {
      MulMonotone(high + 1, q, n);
    }
  }

  // ----- sums in lanes -----

  const PIXEL_MOST := 0xFFF

  ghost predicate TwelveBits(pixels: seq<nat>) { AtMost(pixels, 0xFFF) }

  // The lanes of a register add up to a total, none larger than a bound.
  ghost predicate Carries(r: seq<u16>, total: nat, most: nat) { Total(r) == total && AtMost(r, most) }

  lemma {:induction false} AddCarries(a: seq<u16>, t: nat, p: nat, b: seq<u16>, s: nat, q: nat)
    requires |a| == |b| && Carries(a, t, p) && Carries(b, s, q) && p + q < 0x1_0000
    ensures Carries(AddEpi16(a, b), t + s, p + q)
  {
    forall i | 0 <= i < |a|
      ensures AddEpi16(a, b)[i] == Plus(a, b)[i] <= p + q
    {
      WordsAdd(a[i], b[i]);
    }
    TotalPlus(a, b);
    assert AddEpi16(a, b) == Plus(a, b);
  }

  lemma {:induction false} HalvesCarry(r: seq<u16>, total: nat, most: nat)
    requires Carries(r, total, most) && |r| % 2 == 0 && 2 * most < 0x1_0000
    ensures Carries(AddEpi16(r[..|r| / 2], r[|r| / 2..]), total, 2 * most)
  {
    hide Total, AddEpi16;
    var low, high := r[..|r| / 2], r[|r| / 2..];
    TotalConcat(low, high);
    assert low + high == r;
    AddCarries(low, Total(low), most, high, Total(high), most);
  }

  function ZeroWords(n: nat): (z: seq<u16>)
    ensures |z| == n
  {
    Set1(0, n)
  }

  // unpacklo_epi16 and unpackhi_epi16 with zero.
  function WideLow(r: seq<u16>): (d: seq<u32>)
    requires |r| == 8
    ensures |d| == 4
  {
    AsDwords(UnpackLo<u16>(r, ZeroWords(8)))
  }

  function WideHigh(r: seq<u16>): (d: seq<u32>)
    requires |r| == 8
    ensures |d| == 4
  {
    AsDwords(UnpackHi<u16>(r, ZeroWords(8)))
  }

  lemma {:induction false} WideAre(r: seq<u16>)
    requires |r| == 8
    ensures WideLow(r) == r[..4] && WideHigh(r) == r[4..]
  {
    forall i | 0 <= i < 4
      ensures WideLow(r)[i] == r[i] && WideHigh(r)[i] == r[4 + i]
    {
      InterleavedAt<u16>(r[..4], ZeroWords(8)[..4], i);
      InterleavedAt<u16>(r[4..], ZeroWords(8)[4..], i);
    }
  }

  // srli_si128 by whole lanes: zeros move in at the top.
  function SrliWords(r: seq<u16>, n: nat): (s: seq<u16>)
    requires n <= |r|
    ensures |s| == |r|
  {
    r[n..] + ZeroWords(n)
  }

  // A register and its upper lanes moved down by n, added.
  function Fold(r: seq<u16>, n: nat): (s: seq<u16>)
    requires n <= |r|
    ensures |s| == |r|
  {
    AddEpi16(r, SrliWords(r, n))
  }

  // dc_sum_4x16bit and dc_sum_8x16bit: folded in 16-bit lanes down to the lowest.
  function Sum4x16(r: seq<u16>): u16
    requires |r| == 8
  {
    Fold(Fold(r, 2), 1)[0]
  }

  function Sum8x16(r: seq<u16>): u16
    requires |r| == 8
  {
    Sum4x16(Fold(r, 4))
  }

  // dc_sum_4x16bit_large and dc_sum_8x16bit_large: widened before the last two folds.
  function Sum4x16Large(r: seq<u16>): u32
    requires |r| == 8
  {
    Folded4(WideLow(r))
  }

  function Sum8x16Large(r: seq<u16>): u32
    requires |r| == 8
  {
    Sum4x16Large(Fold(r, 4))
  }

  lemma {:induction false} WordsAdded(a: u16, b: u16, c: u16, d: u16)
    requires a + b + c + d < 0x1_0000
    ensures AddWord(AddWord(a, c), AddWord(b, d)) == a + b + c + d
  {
  }

  // The low four lanes, as far as sixteen bits hold their sum.
  lemma {:induction false} Sum4x16Exact(r: seq<u16>)
    requires |r| == 8 && Total(r[..4]) < 0x1_0000
    ensures Sum4x16(r) == Total(r[..4])
  {
    hide Total, AddWord;
    TotalOfFour(r[..4]);
    WordsAdded(r[0], r[1], r[2], r[3]);
  }

  // All eight lanes: four pairs are added first, so no pair may wrap.
  lemma {:induction false} FoldCarries(r: seq<u16>, total: nat, most: nat)
    requires |r| == 8 && Carries(r, total, most) && 2 * most < 0x1_0000
    ensures Carries(Fold(r, 4)[..4], total, 2 * most)
  {
    hide Total, AddEpi16, AtMost;
    LowFolded(r);
    HalvesCarry(r, total, most);
  }

  lemma {:induction false} Sum8x16Exact(r: seq<u16>, total: nat, most: nat)
    requires |r| == 8 && Carries(r, total, most) && 2 * most < 0x1_0000 && total < 0x1_0000
    ensures Sum8x16(r) == total
  {
    hide Total, Fold, Sum4x16;
    FoldCarries(r, total, most);
    Sum4x16Exact(Fold(r, 4));
  }

  lemma {:induction false} Sum4x16LargeExact(r: seq<u16>)
    requires |r| == 8 && Total(r[..4]) < 0x1_0000_0000
    ensures Sum4x16Large(r) == Total(r[..4])
  {
    hide Total, WideLow, W32, Folded4;
    WideAre(r);
    FoldedTotal(WideLow(r));
    Stored32(Total(r[..4]));
  }

  // The pairs are still added in sixteen bits; only their sums are widened.
  lemma {:induction false} Sum8x16LargeExact(r: seq<u16>, total: nat, most: nat)
    requires |r| == 8 && Carries(r, total, most) && 2 * most < 0x1_0000 && total < 0x1_0000_0000
    ensures Sum8x16Large(r) == total
  {
    hide Total, Fold, Sum4x16Large;
    FoldCarries(r, total, most);
    Sum4x16LargeExact(Fold(r, 4));
  }

  // dc_sum_large, for up to 64 elements.
  function SumLarge(src: seq<u16>): u32
    requires |src| == 16
  {
    var sum := AddEpi16(src[..8], src[8..]);
    Folded4(WideLow(Fold(sum, 4)))
  }

  // dc_sum_larger, for 65 to 128 elements.
  function SumLarger(src: seq<u16>): u32
    requires |src| == 16
  {
    var sum := AddEpi16(src[..8], src[8..]);
    Folded4(AddEpi32(WideLow(sum), WideHigh(sum)))
  }

  // Sixteen times the largest pixel still fits sixteen bits.
  lemma {:induction false} SumLargeExact(src: seq<u16>, total: nat)
    requires |src| == 16 && Carries(src, total, 4 * PIXEL_MOST) && total <= 64 * PIXEL_MOST
    ensures SumLarge(src) == total
  {
    hide AddEpi16, Fold, Folded4, WideLow, Total;
    var sum := AddEpi16(src[..8], src[8..]);
    HalvesCarry(src, total, 4 * PIXEL_MOST);
    Sum8x16LargeExact(sum, total, 8 * PIXEL_MOST);
  }

  lemma {:induction false} LowFolded(sum: seq<u16>)
    requires |sum| == 8
    ensures Fold(sum, 4)[..4] == AddEpi16(sum[..4], sum[4..])
  {
    hide AddWord;
  }

  lemma {:induction false} SumLargerExact(src: seq<u16>, total: nat)
    requires |src| == 16 && Carries(src, total, 8 * PIXEL_MOST) && total <= 128 * PIXEL_MOST
    ensures SumLarger(src) == total
  {
    hide AddEpi16, WideLow, WideHigh, Total, W32, AddDword, Folded4;
    var sum := AddEpi16(src[..8], src[8..]);
    HalvesCarry(src, total, 8 * PIXEL_MOST);
    WideAre(sum);
    var low, high := WideLow(sum), WideHigh(sum);
    forall i | 0 <= i < 4
      ensures AddEpi32(low, high)[i] == Plus(low, high)[i]
    {
      DwordsAdd(low[i], high[i]);
    }
    assert AddEpi32(low, high) == Plus(low, high);
    TotalPlus(low, high);
    TotalConcat(sum[..4], sum[4..]);
    assert sum[..4] + sum[4..] == sum;
    FoldedTotal(AddEpi32(low, high));
    Stored32(total);
  }

  // ----- the sums of neighbours -----

  // Sixteen pixels at a time.
  function Sixteen(src: seq<u16>, k: nat): (r: seq<u16>)
    requires 16 * k + 16 <= |src|
    ensures |r| == 16
  {
    Load(src, 16 * k, 16)
  }

  lemma {:induction false} HalvesTotal(src: seq<u16>)
    requires |src| == 32 && TwelveBits(src)
    ensures Total(Sixteen(src, 0)) + Total(Sixteen(src, 1)) == Total(src)
    ensures forall k :: 0 <= k < 2 ==> Carries(Sixteen(src, k), Total(Sixteen(src, k)), PIXEL_MOST)
  {
    hide Total;
    TotalConcat(Sixteen(src, 0), Sixteen(src, 1));
    assert Sixteen(src, 0) + Sixteen(src, 1) == src;
  }

  // The quarters of 64 pixels add up to all of them.
  lemma {:induction false} QuartersTotal(src: seq<u16>)
    requires |src| == 64 && TwelveBits(src)
    ensures Total(Sixteen(src, 0)) + Total(Sixteen(src, 1)) + Total(Sixteen(src, 2)) + Total(Sixteen(src, 3))
        == Total(src)
    ensures forall k :: 0 <= k < 4 ==> Carries(Sixteen(src, k), Total(Sixteen(src, k)), PIXEL_MOST)
  {
    hide Total;
    TotalConcat(Sixteen(src, 0), Sixteen(src, 1));
    TotalConcat(Sixteen(src, 2), Sixteen(src, 3));
    TotalConcat(Sixteen(src, 0) + Sixteen(src, 1), Sixteen(src, 2) + Sixteen(src, 3));
    assert Sixteen(src, 0) + Sixteen(src, 1) + (Sixteen(src, 2) + Sixteen(src, 3)) == src;
  }

  function Sum16(src: seq<u16>): u16
    requires |src| == 16
  {
    Sum8x16(AddEpi16(src[..8], src[8..]))
  }

  function Sum32(src: seq<u16>): u32
    requires |src| == 32
  {
    SumLarge(AddEpi16(Sixteen(src, 0), Sixteen(src, 1)))
  }

  function Sum64(src: seq<u16>): u32
    requires |src| == 64
  {
    SumLarge(AddEpi16(AddEpi16(Sixteen(src, 0), Sixteen(src, 1)), AddEpi16(Sixteen(src, 2), Sixteen(src, 3))))
  }

  function Sum4And16(src4: seq<u16>, src16: seq<u16>): u32
    requires |src4| == 4 && |src16| == 16
  {
    var s0 := AddEpi16(src16[..8], src16[8..]);
    Sum4x16Large(AddEpi16(Fold(s0, 4), LoadLow(src4, 0, 4)))
  }

  function Sum8And16(src8: seq<u16>, src16: seq<u16>): u32
    requires |src8| == 8 && |src16| == 16
  {
    Sum8x16Large(AddEpi16(AddEpi16(src16[..8], src16[8..]), src8))
  }

  function Sum8And32(src8: seq<u16>, src32: seq<u16>): u32
    requires |src8| == 8 && |src32| == 32
  {
    var s := AddEpi16(Sixteen(src32, 0), Sixteen(src32, 1));
    Sum8x16Large(AddEpi16(src8, AddEpi16(s[..8], s[8..])))
  }

  function Sum16And16(src0: seq<u16>, src1: seq<u16>): u32
    requires |src0| == |src1| == 16
  {
    SumLarge(AddEpi16(src0, src1))
  }

  function Sum16And32(src16: seq<u16>, src32: seq<u16>): u32
    requires |src16| == 16 && |src32| == 32
  {
    SumLarge(AddEpi16(AddEpi16(src16, Sixteen(src32, 0)), Sixteen(src32, 1)))
  }

  function Sum16And64(src16: seq<u16>, src64: seq<u16>): u32
    requires |src16| == 16 && |src64| == 64
  {
    SumLarger(AddEpi16(AddEpi16(AddEpi16(src16, Sixteen(src64, 0)), Sixteen(src64, 1)),
                       AddEpi16(Sixteen(src64, 2), Sixteen(src64, 3))))
  }

  function Sum32And32(src0: seq<u16>, src1: seq<u16>): u32
    requires |src0| == |src1| == 32
  {
    SumLarge(AddEpi16(AddEpi16(Sixteen(src0, 0), Sixteen(src1, 0)), AddEpi16(Sixteen(src0, 1), Sixteen(src1, 1))))
  }

  function Sum32And64(src32: seq<u16>, src64: seq<u16>): u32
    requires |src32| == 32 && |src64| == 64
  {
    var s0, s1 := AddEpi16(Sixteen(src32, 0), Sixteen(src64, 0)), AddEpi16(Sixteen(src32, 1), Sixteen(src64, 1));
    SumLarger(AddEpi16(AddEpi16(Sixteen(src64, 2), Sixteen(src64, 3)), AddEpi16(s0, s1)))
  }

  function Sum64And64(src0: seq<u16>, src1: seq<u16>): u32
    requires |src0| == |src1| == 64
  {
    var s0, s1 := AddEpi16(Sixteen(src0, 0), Sixteen(src1, 0)), AddEpi16(Sixteen(src0, 1), Sixteen(src1, 1));
    var s2, s3 := AddEpi16(Sixteen(src0, 2), Sixteen(src1, 2)), AddEpi16(Sixteen(src0, 3), Sixteen(src1, 3));
    SumLarger(AddEpi16(AddEpi16(s0, s1), AddEpi16(s2, s3)))
  }

  // ----- the sums are exact -----

  // Two registers of known totals, added.
  lemma {:induction false} Added(a: seq<u16>, p: nat, b: seq<u16>, q: nat)
    requires |a| == |b| && Carries(a, Total(a), p) && Carries(b, Total(b), q) && p + q < 0x1_0000
    ensures var s := AddEpi16(a, b); Carries(s, Total(s), p + q) && Total(s) == Total(a) + Total(b)
  {
    hide Total, AddEpi16, AtMost;
    AddCarries(a, Total(a), p, b, Total(b), q);
  }

  lemma {:induction false} PixelsCarry(src: seq<u16>)
    requires TwelveBits(src)
    ensures Carries(src, Total(src), PIXEL_MOST) && Total(src) <= PIXEL_MOST * |src|
  {
    TotalBetween(src, 0, PIXEL_MOST);
  }

  lemma {:induction false} Sum16Exact(src: seq<u16>)
    requires |src| == 16 && TwelveBits(src)
    ensures Sum16(src) == Total(src)
  {
    hide Total, AddEpi16, AtMost, Sum8x16;
    PixelsCarry(src);
    HalvesCarry(src, Total(src), PIXEL_MOST);
    Sum8x16Exact(AddEpi16(src[..8], src[8..]), Total(src), 2 * PIXEL_MOST);
  }

  lemma {:induction false} Sum32Exact(src: seq<u16>)
    requires |src| == 32 && TwelveBits(src)
    ensures Sum32(src) == Total(src)
  {
    hide Total, AddEpi16, AtMost, SumLarge, SumLarger, Carries, Sixteen;
    PixelsCarry(src);
    HalvesTotal(src);
    var a, b := Sixteen(src, 0), Sixteen(src, 1);
    Added(a, PIXEL_MOST, b, PIXEL_MOST);
    LargeExact(AddEpi16(a, b), 2 * PIXEL_MOST);
  }

  lemma {:induction false} Sum64Exact(src: seq<u16>)
    requires |src| == 64 && TwelveBits(src)
    ensures Sum64(src) == Total(src)
  {
    hide Total, AddEpi16, AtMost, SumLarge, SumLarger, Carries, Sixteen;
    PixelsCarry(src);
    QuartersTotal(src);
    var a, b, c, d := Sixteen(src, 0), Sixteen(src, 1), Sixteen(src, 2), Sixteen(src, 3);
    Added(a, PIXEL_MOST, b, PIXEL_MOST);
    Added(c, PIXEL_MOST, d, PIXEL_MOST);
    Added(AddEpi16(a, b), 2 * PIXEL_MOST, AddEpi16(c, d), 2 * PIXEL_MOST);
    LargeExact(AddEpi16(AddEpi16(a, b), AddEpi16(c, d)), 4 * PIXEL_MOST);
  }

  lemma {:induction false} Sum16And16Exact(src0: seq<u16>, src1: seq<u16>)
    requires |src0| == |src1| == 16 && TwelveBits(src0) && TwelveBits(src1)
    ensures Sum16And16(src0, src1) == Total(src0) + Total(src1)
  {
    hide Total, AddEpi16, AtMost, SumLarge, SumLarger, Carries, Sixteen;
    PixelsCarry(src0);
    PixelsCarry(src1);
    Added(src0, PIXEL_MOST, src1, PIXEL_MOST);
    LargeExact(AddEpi16(src0, src1), 2 * PIXEL_MOST);
  }

  lemma {:induction false} Sum16And32Exact(src16: seq<u16>, src32: seq<u16>)
    requires |src16| == 16 && |src32| == 32 && TwelveBits(src16) && TwelveBits(src32)
    ensures Sum16And32(src16, src32) == Total(src16) + Total(src32)
  {
    hide Total, AddEpi16, AtMost, SumLarge, SumLarger, Carries, Sixteen;
    PixelsCarry(src16);
    PixelsCarry(src32);
    HalvesTotal(src32);
    var a, b := Sixteen(src32, 0), Sixteen(src32, 1);
    Added(src16, PIXEL_MOST, a, PIXEL_MOST);
    Added(AddEpi16(src16, a), 2 * PIXEL_MOST, b, PIXEL_MOST);
    LargeExact(AddEpi16(AddEpi16(src16, a), b), 3 * PIXEL_MOST);
  }

  lemma {:induction false} Sum32And32Exact(src0: seq<u16>, src1: seq<u16>)
    requires |src0| == |src1| == 32 && TwelveBits(src0) && TwelveBits(src1)
    ensures Sum32And32(src0, src1) == Total(src0) + Total(src1)
  {
    hide Total, AddEpi16, AtMost, SumLarge, SumLarger, Carries, Sixteen;
    PixelsCarry(src0);
    PixelsCarry(src1);
    HalvesTotal(src0);
    HalvesTotal(src1);
    var a, b, c, d := Sixteen(src0, 0), Sixteen(src1, 0), Sixteen(src0, 1), Sixteen(src1, 1);
    Added(a, PIXEL_MOST, b, PIXEL_MOST);
    Added(c, PIXEL_MOST, d, PIXEL_MOST);
    Added(AddEpi16(a, b), 2 * PIXEL_MOST, AddEpi16(c, d), 2 * PIXEL_MOST);
    LargeExact(AddEpi16(AddEpi16(a, b), AddEpi16(c, d)), 4 * PIXEL_MOST);
  }

  lemma {:induction false} Sum16And64Exact(src16: seq<u16>, src64: seq<u16>)
    requires |src16| == 16 && |src64| == 64 && TwelveBits(src16) && TwelveBits(src64)
    ensures Sum16And64(src16, src64) == Total(src16) + Total(src64)
  {
    hide Total, AddEpi16, AtMost, SumLarge, SumLarger, Carries, Sixteen;
    PixelsCarry(src16);
    PixelsCarry(src64);
    QuartersTotal(src64);
    var a, b, c, d := Sixteen(src64, 0), Sixteen(src64, 1), Sixteen(src64, 2), Sixteen(src64, 3);
    Added(src16, PIXEL_MOST, a, PIXEL_MOST);
    var s := AddEpi16(src16, a);
    Added(s, 2 * PIXEL_MOST, b, PIXEL_MOST);
    Added(c, PIXEL_MOST, d, PIXEL_MOST);
    Added(AddEpi16(s, b), 3 * PIXEL_MOST, AddEpi16(c, d), 2 * PIXEL_MOST);
    LargerExact(AddEpi16(AddEpi16(s, b), AddEpi16(c, d)), 5 * PIXEL_MOST);
  }

  lemma {:induction false} Sum32And64Exact(src32: seq<u16>, src64: seq<u16>)
    requires |src32| == 32 && |src64| == 64 && TwelveBits(src32) && TwelveBits(src64)
    ensures Sum32And64(src32, src64) == Total(src32) + Total(src64)
  {
    hide Total, AddEpi16, AtMost, SumLarge, SumLarger, Carries, Sixteen;
    PixelsCarry(src32);
    PixelsCarry(src64);
    HalvesTotal(src32);
    QuartersTotal(src64);
    var a, b, c, d := Sixteen(src64, 0), Sixteen(src64, 1), Sixteen(src64, 2), Sixteen(src64, 3);
    var e, f := Sixteen(src32, 0), Sixteen(src32, 1);
    Added(e, PIXEL_MOST, a, PIXEL_MOST);
    Added(f, PIXEL_MOST, b, PIXEL_MOST);
    Added(c, PIXEL_MOST, d, PIXEL_MOST);
    var s, t, u := AddEpi16(e, a), AddEpi16(f, b), AddEpi16(c, d);
    Added(s, 2 * PIXEL_MOST, t, 2 * PIXEL_MOST);
    Added(u, 2 * PIXEL_MOST, AddEpi16(s, t), 4 * PIXEL_MOST);
    LargerExact(AddEpi16(u, AddEpi16(s, t)), 6 * PIXEL_MOST);
  }

  lemma {:induction false} Sum64And64Exact(src0: seq<u16>, src1: seq<u16>)
    requires |src0| == |src1| == 64 && TwelveBits(src0) && TwelveBits(src1)
    ensures Sum64And64(src0, src1) == Total(src0) + Total(src1)
  {
    hide Total, AddEpi16, AtMost, SumLarge, SumLarger, Carries, Sixteen;
    PixelsCarry(src0);
    PixelsCarry(src1);
    QuartersTotal(src0);
    QuartersTotal(src1);
    var s, t := AddEpi16(Sixteen(src0, 0), Sixteen(src1, 0)), AddEpi16(Sixteen(src0, 1), Sixteen(src1, 1));
    var u, v := AddEpi16(Sixteen(src0, 2), Sixteen(src1, 2)), AddEpi16(Sixteen(src0, 3), Sixteen(src1, 3));
    Added(Sixteen(src0, 0), PIXEL_MOST, Sixteen(src1, 0), PIXEL_MOST);
    Added(Sixteen(src0, 1), PIXEL_MOST, Sixteen(src1, 1), PIXEL_MOST);
    Added(Sixteen(src0, 2), PIXEL_MOST, Sixteen(src1, 2), PIXEL_MOST);
    Added(Sixteen(src0, 3), PIXEL_MOST, Sixteen(src1, 3), PIXEL_MOST);
    Added(s, 2 * PIXEL_MOST, t, 2 * PIXEL_MOST);
    Added(u, 2 * PIXEL_MOST, v, 2 * PIXEL_MOST);
    Added(AddEpi16(s, t), 4 * PIXEL_MOST, AddEpi16(u, v), 4 * PIXEL_MOST);
    LargerExact(AddEpi16(AddEpi16(s, t), AddEpi16(u, v)), 8 * PIXEL_MOST);
  }

  lemma {:induction false} LargeExact(r: seq<u16>, most: nat)
    requires |r| == 16 && Carries(r, Total(r), most) && most <= 4 * PIXEL_MOST && Total(r) <= 64 * PIXEL_MOST
    ensures SumLarge(r) == Total(r)
  {
    hide Total;
    SumLargeExact(r, Total(r));
  }

  lemma {:induction false} LargerExact(r: seq<u16>, most: nat)
    requires |r| == 16 && Carries(r, Total(r), most) && most <= 8 * PIXEL_MOST && Total(r) <= 128 * PIXEL_MOST
    ensures SumLarger(r) == Total(r)
  {
    hide Total;
    SumLargerExact(r, Total(r));
  }

  lemma {:induction false} Sum8And16Exact(src8: seq<u16>, src16: seq<u16>)
    requires |src8| == 8 && |src16| == 16 && TwelveBits(src8) && TwelveBits(src16)
    ensures Sum8And16(src8, src16) == Total(src8) + Total(src16)
  {
    hide Total, AddEpi16, AtMost, Sum8x16Large;
    PixelsCarry(src8);
    PixelsCarry(src16);
    HalvesCarry(src16, Total(src16), PIXEL_MOST);
    var s := AddEpi16(src16[..8], src16[8..]);
    Added(s, 2 * PIXEL_MOST, src8, PIXEL_MOST);
    Sum8x16LargeExact(AddEpi16(s, src8), Total(src8) + Total(src16), 3 * PIXEL_MOST);
  }

  lemma {:induction false} Sum8And32Exact(src8: seq<u16>, src32: seq<u16>)
    requires |src8| == 8 && |src32| == 32 && TwelveBits(src8) && TwelveBits(src32)
    ensures Sum8And32(src8, src32) == Total(src8) + Total(src32)
  {
    hide Total, AddEpi16, AtMost, Sum8x16Large, Sixteen;
    PixelsCarry(src8);
    PixelsCarry(src32);
    HalvesTotal(src32);
    var a, b := Sixteen(src32, 0), Sixteen(src32, 1);
    Added(a, PIXEL_MOST, b, PIXEL_MOST);
    var s := AddEpi16(a, b);
    HalvesCarry(s, Total(s), 2 * PIXEL_MOST);
    var t := AddEpi16(s[..8], s[8..]);
    Added(src8, PIXEL_MOST, t, 4 * PIXEL_MOST);
    Sum8x16LargeExact(AddEpi16(src8, t), Total(src8) + Total(src32), 5 * PIXEL_MOST);
  }

  lemma {:induction false} Sum4And16Exact(src4: seq<u16>, src16: seq<u16>)
    requires |src4| == 4 && |src16| == 16 && TwelveBits(src4) && TwelveBits(src16)
    ensures Sum4And16(src4, src16) == Total(src4) + Total(src16)
  {
    hide Total, AddEpi16, AtMost, Sum4x16Large, Fold;
    PixelsCarry(src4);
    PixelsCarry(src16);
    HalvesCarry(src16, Total(src16), PIXEL_MOST);
    var s0 := AddEpi16(src16[..8], src16[8..]);
    var t := Fold(s0, 4);
    FoldCarries(s0, Total(s0), 2 * PIXEL_MOST);
    Added(t[..4], 4 * PIXEL_MOST, src4, PIXEL_MOST);
    LowSum(t, src4);
    Sum4x16LargeExact(AddEpi16(t, LoadLow(src4, 0, 4)));
  }

  lemma {:induction false} LowSum(a: seq<u16>, src4: seq<u16>)
    requires |a| == 8 && |src4| == 4
    ensures AddEpi16(a, LoadLow(src4, 0, 4))[..4] == AddEpi16(a[..4], src4)
  {
    hide AddWord;
  }

  // Thirteen bits are too many: sixteen such pixels wrap to nothing.
  lemma {:induction false} ThirteenBitsWrap()
    ensures var src: seq<u16> := Set1(0x1000, 16); Total(src) == 0x1_0000 && Sum16(src) == 0
  {
    hide Sum8x16, AddWord;
    var src: seq<u16>, half: seq<u16> := Set1(0x1000, 16), Set1(0x2000, 8);
    SameTotal(0x1000, 16);
    SameTotal(0x2000, 8);
    var sum := AddEpi16(src[..8], src[8..]);
    forall i | 0 <= i < 8
      ensures sum[i] == half[i]
    {
      WordsAdd(0x1000, 0x1000);
    }
    assert sum == half;
    WrapsToNothing(half);
  }

  lemma {:induction false} WrapsToNothing(half: seq<u16>)
    requires half == Set1<u16>(0x2000, 8)
    ensures Sum8x16(half) == 0
  {
    var four := Fold(half, 4);
    assert four[0] == four[1] == four[2] == four[3] == 0x4000;
    var two := Fold(four, 2);
    assert two[0] == two[1] == 0x8000;
  }

  lemma {:induction false} SameTotal(v: u16, n: nat)
    ensures Total(Set1<u16>(v, n)) == v * n
    decreases n
  {
    if n > 0 {
      SameTotal(v, n - 1);
      assert Set1<u16>(v, n)[1..] == Set1<u16>(v, n - 1);
      OneMore(v, n - 1);
    }
  }

  // ----- the value -----

  predicate Size(w: nat, h: nat) {
    w in {16, 32, 64} && h in {4, 8, 16, 32, 64} && w <= 4 * h && h <= 4 * w
  }

  // All sizes of the codec from 16 columns on.
  lemma {:induction false} Sizes(w: nat, h: nat)
    ensures Size(w, h) <==>
      (w, h) in {(16, 4), (16, 8), (16, 16), (16, 32), (16, 64), (32, 8), (32, 16), (32, 32), (32, 64), (64, 16),
                 (64, 32), (64, 64)}
  {
  }

  function DcSum(above: seq<u16>, left: seq<u16>): u32
    requires Size(|above|, |left|)
  {
    var w, h := |above|, |left|;
    if w == 16 then
      if h == 4 then Sum4And16(left, above) else if h == 8 then Sum8And16(left, above) else if h == 16 then
          Sum16And16(above, left)
      else if h == 32 then Sum16And32(above, left) else Sum16And64(above, left)
    else if w == 32 then
      if h == 8 then Sum8And32(left, above) else if h == 16 then Sum16And32(left, above)
      else if h == 32 then Sum32And32(above, left) else Sum32And64(above, left)
    else
      if h == 16 then Sum16And64(left, above) else if h == 32 then Sum32And64(left, above) else Sum64And64(above, left)
  }

  lemma {:induction false} DcSumExact(above: seq<u16>, left: seq<u16>)
    requires Size(|above|, |left|) && TwelveBits(above) && TwelveBits(left)
    ensures DcSum(above, left) == Total(above) + Total(left)
  {
    hide Total, Sum4And16, Sum8And16, Sum8And32, Sum16And16, Sum16And32, Sum16And64, Sum32And32, Sum32And64,
        Sum64And64, AtMost;
    var w, h := |above|, |left|;
    if h == 4 { Sum4And16Exact(left, above); }
    else if h == 8 && w == 16 { Sum8And16Exact(left, above); }
    else if h == 8 { Sum8And32Exact(left, above); }
    else if w == 16 && h == 16 { Sum16And16Exact(above, left); }
    else if w == 16 && h == 32 { Sum16And32Exact(above, left); }
    else if w == 32 && h == 16 { Sum16And32Exact(left, above); }
    else if w == 16 { Sum16And64Exact(above, left); }
    else if w == 64 && h == 16 { Sum16And64Exact(left, above); }
    else if w == 32 && h == 32 { Sum32And32Exact(above, left); }
    else if w == 32 { Sum32And64Exact(above, left); }
    else if h == 32 { Sum32And64Exact(left, above); }
    else { Sum64And64Exact(above, left); }
  }

  // log2 of how many neighbours there are.
  function Log(n: nat): nat {
    if n == 4 then 2 else if n == 8 then 3 else if n == 16 then 4 else if n == 32 then 5 else if n == 64 then 6 else 7
  }

  lemma {:induction false} LogIs(n: nat)
    requires n in {4, 8, 16, 32, 64, 128}
    ensures Pow2(Log(n)) == n
  {
    assert Pow2(0) == 1 && Pow2(1) == 2 && Pow2(2) == 4 && Pow2(3) == 8;
    assert Pow2(4) == 16 && Pow2(5) == 32 && Pow2(6) == 64 && Pow2(7) == 128;
  }

  // Square blocks shift, others divide.
  function DcBoth(above: seq<u16>, left: seq<u16>): u16
    requires Size(|above|, |left|)
  {
    var n := |above| + |left|;
    var rounded := AddDword(DcSum(above, left), n / 2);
    if |above| == |left| then LowWord(Down(rounded, Log(n))) else W16(rounded / n)
  }

  lemma {:induction false} DcBothExact(above: seq<u16>, left: seq<u16>)
    requires Size(|above|, |left|) && TwelveBits(above) && TwelveBits(left)
    ensures DcBoth(above, left) == Mean(above + left) <= PIXEL_MOST
  {
    hide Total, DcSum, AddDword, Down, LowWord, W16;
    var n := |above| + |left|;
    DcSumExact(above, left);
    TotalConcat(above, left);
    PixelsCarry(above);
    PixelsCarry(left);
    DwordsAdd(DcSum(above, left), n / 2);
    MeanBetween(above + left, 0, PIXEL_MOST);
    if |above| == |left| {
      LogIs(n);
      DownDivides(DcSum(above, left) + n / 2, Log(n));
    }
    StoredMean(Mean(above + left));
  }

  lemma {:induction false} StoredMean(v: nat)
    requires v <= PIXEL_MOST
    ensures LowWord(v) == v && W16(v) == v
  {
  }

  // One side: 16-bit arithmetic for up to sixteen neighbours, 32-bit for more.
  function DcSide(src: seq<u16>): u16
    requires |src| in {4, 8, 16, 32, 64}
  {
    var n := |src|;
    if n == 4 then ShiftLane(AddWord(Sum4x16(LoadLow(src, 0, 4)), n / 2), Log(n))
    else if n == 8 then ShiftLane(AddWord(Sum8x16(src), n / 2), Log(n))
    else if n == 16 then ShiftLane(AddWord(Sum16(src), n / 2), Log(n))
    else if n == 32 then LowWord(Down(AddDword(Sum32(src), n / 2), Log(n)))
    else LowWord(Down(AddDword(Sum64(src), n / 2), Log(n)))
  }

  lemma {:induction false} DcSideExact(src: seq<u16>)
    requires |src| in {4, 8, 16, 32, 64} && TwelveBits(src)
    ensures DcSide(src) == Mean(src) <= PIXEL_MOST
  {
    hide Total, AddDword, AddWord, Down, LowWord, W16, Sum4x16, Sum8x16, Sum16, Sum32, Sum64;
    var n, total := |src|, Total(src);
    PixelsCarry(src);
    LogIs(n);
    DownDivides(total + n / 2, Log(n));
    MeanBetween(src, 0, PIXEL_MOST);
    StoredMean(Mean(src));
    if n == 4 {
      assert LoadLow(src, 0, 4)[..4] == src;
      Sum4x16Exact(LoadLow(src, 0, 4));
      WordsAdd(total, n / 2);
    } else if n == 8 {
      Sum8x16Exact(src, total, PIXEL_MOST);
      WordsAdd(total, n / 2);
    } else if n == 16 {
      Sum16Exact(src);
      WordsAdd(total, n / 2);
    } else if n == 32 {
      Sum32Exact(src);
      DwordsAdd(total, n / 2);
    } else {
      Sum64Exact(src);
      DwordsAdd(total, n / 2);
    }
  }

  // ----- filling the block -----

  ghost function Constant(v: u16, w: nat, h: nat): (rows: seq<seq<u16>>)
    ensures |rows| == h && IsBlock(rows, w)
  {
    seq(h, r => Set1(v, w))
  }

  // Rows of one, two and four stores of sixteen pixels.
  method Fill(dst: array<u16>, stride: nat, w: nat, h: nat, dc: u16)
    requires w % 16 == 0 && Fits(dst.Length, 0, stride, w, h)
    modifies dst
    ensures dst[..] == PutRows(old(dst[..]), 0, stride, w, Constant(dc, w, h))
  {
    hide Offset, Put, PutRows;
    ghost var rows := Constant(dc, w, h);
    WrittenNone(dst[..], 0, stride, w, rows);
    var register: seq<u16> := Set1<u16>(dc, 16);
    var at := 0;
    for i := 0 to h
      invariant at == Offset(i, stride) && Written(dst[..], old(dst[..]), 0, stride, w, rows, i)
    {
      WrittenNext(dst[..], old(dst[..]), 0, stride, w, rows, i);
      FillRow(dst, at, w, register, dc);
      at := at + stride;
    }
    WrittenAll(dst[..], old(dst[..]), 0, stride, w, rows);
  }

  method FillRow(dst: array<u16>, at: nat, w: nat, register: seq<u16>, ghost dc: u16)
    requires register == Set1<u16>(dc, 16) && w % 16 == 0 && at + w <= dst.Length
    modifies dst
    ensures dst[..] == Put(old(dst[..]), at, Set1<u16>(dc, w))
  {
    hide Put;
    ghost var row := Set1<u16>(dc, w);
    PutMore(old(dst[..]), at, row, 0, 0);
    var c := 0;
    while c < w
      invariant c <= w && c % 16 == 0 && dst[..] == Put(old(dst[..]), at, row[..c])
    {
      PutMore(old(dst[..]), at, row, c, 16);
      SameEverywhere(dc, w, c);
      Store(dst, at + c, register);
      c := c + 16;
    }
    PutMore(old(dst[..]), at, row, 0, 0);
  }

  lemma {:induction false} SameEverywhere(v: u16, w: nat, c: nat)
    requires c + 16 <= w
    ensures Set1<u16>(v, w)[c..c + 16] == Set1<u16>(v, 16)
  {
  }

  /** DC_PRED: the block holds the rounded mean of the neighbours above and to the left. */
  method PredictDc(dst: array<u16>, stride: nat, above: seq<u16>, left: seq<u16>)
    requires Size(|above|, |left|) && TwelveBits(above) && TwelveBits(left)
        && Fits(dst.Length, 0, stride, |above|, |left|)
    modifies dst
    ensures above != [] && Mean(above + left) <= PIXEL_MOST
    ensures dst[..] == PutRows(old(dst[..]), 0, stride, |above|, Constant(Mean(above + left), |above|, |left|))
  {
    hide AtMost, Mean, PutRows, Fits, DcBoth, Constant;
    DcBothExact(above, left);
    Fill(dst, stride, |above|, |left|, DcBoth(above, left));
  }

  /** DC_LEFT_PRED: the mean of the neighbours to the left. */
  method PredictDcLeft(dst: array<u16>, stride: nat, w: nat, left: seq<u16>)
    requires Size(w, |left|) && TwelveBits(left) && Fits(dst.Length, 0, stride, w, |left|)
    modifies dst
    ensures left != [] && Mean(left) <= PIXEL_MOST
    ensures dst[..] == PutRows(old(dst[..]), 0, stride, w, Constant(Mean(left), w, |left|))
  {
    hide AtMost, Mean, PutRows, Fits, DcSide, Constant;
    DcSideExact(left);
    Fill(dst, stride, w, |left|, DcSide(left));
  }

  /** DC_TOP_PRED: the mean of the neighbours above. */
  method PredictDcTop(dst: array<u16>, stride: nat, above: seq<u16>, h: nat)
    requires Size(|above|, h) && TwelveBits(above) && Fits(dst.Length, 0, stride, |above|, h)
    modifies dst
    ensures above != [] && Mean(above) <= PIXEL_MOST
    ensures dst[..] == PutRows(old(dst[..]), 0, stride, |above|, Constant(Mean(above), |above|, h))
  {
    hide AtMost, Mean, PutRows, Fits, DcSide, Constant;
    DcSideExact(above);
    Fill(dst, stride, |above|, h, DcSide(above));
  }

  // Every pixel read back is the mean, between the smallest and the largest neighbour.
  lemma {:induction false} DcAt(before: seq<u16>, stride: nat, w: nat, h: nat, pixels: seq<u16>, low: nat, high: nat,
                                r: nat, c: nat)
    requires Fits(|before|, 0, stride, w, h) && r < h && c < w && pixels != [] && TwelveBits(pixels)
        && Mean(pixels) <= PIXEL_MOST
    requires forall i :: 0 <= i < |pixels| ==> low <= pixels[i] <= high
    ensures Offset(r, stride) + c < |before|
    ensures
      var v := PutRows(before, 0, stride, w, Constant(Mean(pixels), w, h))[Offset(r, stride) + c];
      v == (Total(pixels) + |pixels| / 2) / |pixels| && low <= v <= high
  {
    PutRowsAt(before, 0, stride, w, Constant(Mean(pixels), w, h), r, c);
    MeanBetween(pixels, low, high);
    hide Offset, PutRows, Fits, Total;
  }
}
