/** Eight-tap filters on 32-bit lanes: dot products, rounding, packing and clipping. */
module Filter {
  import opened Arithmetic
  import opened MachineInts
  import opened Shifts
  import opened Simd

  const FILTER_BITS := 7

  // ----- one pixel -----

  function Dot(f: seq<int>, x: seq<int>): int
    requires |f| == |x| == 8
  {
    f[0] * x[0] + f[1] * x[1] + (f[2] * x[2] + f[3] * x[3]) + (f[4] * x[4] + f[5] * x[5] + (f[6] * x[6] + f[7] * x[7]))
  }

  // Larger than any tap of an interpolation filter.
  const TAP_MOST := 0x1000

  ghost predicate Taps(f: seq<int>) { |f| == 8 && forall k :: 0 <= k < 8 ==> -0x1000 <= f[k] <= 0x1000 }

  ghost predicate Small(x: seq<int>) { forall k :: 0 <= k < |x| ==> 0 <= x[k] < 0x8000 }

  function MaxPixel(bd: nat): u16 { if bd == 10 then 1023 else if bd == 12 then 4095 else 255 }

  // One rounding, and two in a row.
  function RoundedOnce(f: seq<int>, x: seq<int>, bd: nat): u16
    requires |f| == |x| == 8
  {
    Clamp(RoundPowerOfTwo(Dot(f, x), FILTER_BITS), 0, MaxPixel(bd))
  }

  function RoundedTwice(f: seq<int>, x: seq<int>, round0: nat, bd: nat): u16
    requires |f| == |x| == 8 && round0 <= FILTER_BITS
  {
    Clamp(RoundPowerOfTwo(RoundPowerOfTwo(Dot(f, x), round0), FILTER_BITS - round0), 0, MaxPixel(bd))
  }

  // The clip in numbers: ten or twelve bits, otherwise eight.
  lemma {:induction false} MaxPixelIs(bd: nat)
    ensures MaxPixel(bd) == Pow2(if bd == 10 || bd == 12 then bd else 8) - 1
  {
    Powers(0);
    assert Pow2(8) == 256 && Pow2(10) == 4 * Pow2(8) && Pow2(12) == 4 * Pow2(10);
  }

  lemma {:induction false} DotIs(f: seq<int>, x: seq<int>)
    requires |f| == |x| == 8
    ensures Dot(f, x) == f[0] * x[0] + f[1] * x[1] + f[2] * x[2] + f[3] * x[3]
                         + f[4] * x[4] + f[5] * x[5] + f[6] * x[6] + f[7] * x[7]
  {
  }

  // Both pixels in numbers: products added up, divided with halves rounded up, and clipped to the bit depth.
  lemma {:induction false} OnceIs(f: seq<int>, x: seq<int>, bd: nat)
    requires |f| == |x| == 8
    ensures
      var sum := f[0] * x[0] + f[1] * x[1] + f[2] * x[2] + f[3] * x[3]
                 + f[4] * x[4] + f[5] * x[5] + f[6] * x[6] + f[7] * x[7];
      RoundedOnce(f, x, bd) == Max(0, Min((sum + 64) / 128, Pow2(if bd == 10 || bd == 12 then bd else 8) - 1))
  {
    MaxPixelIs(bd);
    DotIs(f, x);
    Powers(0);
    hide Pow2, MaxPixel, Dot, RoundPowerOfTwo;
    RoundDivides(Dot(f, x), 7);
  }

  lemma {:induction false} TwiceIs(f: seq<int>, x: seq<int>, round0: nat, bd: nat)
    requires |f| == |x| == 8 && round0 <= 7
    ensures
      var sum := f[0] * x[0] + f[1] * x[1] + f[2] * x[2] + f[3] * x[3]
                 + f[4] * x[4] + f[5] * x[5] + f[6] * x[6] + f[7] * x[7];
      var once := (sum + Pow2(round0) / 2) / Pow2(round0);
      RoundedTwice(f, x, round0, bd) == Max(0, Min((once + Pow2(7 - round0) / 2) / Pow2(7 - round0),
                                                   Pow2(if bd == 10 || bd == 12 then bd else 8) - 1))
  {
    MaxPixelIs(bd);
    DotIs(f, x);
    hide Pow2, MaxPixel, Dot, RoundPowerOfTwo;
    RoundDivides(Dot(f, x), round0);
    RoundDivides((Dot(f, x) + Pow2(round0) / 2) / Pow2(round0), 7 - round0);
  }

  // A constant picture stays as it is when the taps add up to 128.
  lemma {:induction false} ConstantFixed(f: seq<int>, x: seq<int>, v: nat, round0: nat, bd: nat)
    requires |f| == |x| == 8 && f[0] + f[1] + f[2] + f[3] + f[4] + f[5] + f[6] + f[7] == 128
    requires (forall k :: 0 <= k < 8 ==> x[k] == v) && v <= MaxPixel(bd) && round0 <= FILTER_BITS
    ensures RoundedOnce(f, x, bd) == v && RoundedTwice(f, x, round0, bd) == v
  {
    Factored(f, v);
    assert Dot(f, x) == 128 * v;
    hide Dot, RoundPowerOfTwo;
    ExactTwice(v, round0);
  }

  lemma {:induction false} ExactTwice(v: nat, round0: nat)
    requires round0 <= FILTER_BITS
    ensures RoundPowerOfTwo(128 * v, FILTER_BITS) == v
    ensures RoundPowerOfTwo(RoundPowerOfTwo(128 * v, round0), FILTER_BITS - round0) == v
  {
    hide RoundPowerOfTwo, Pow2;
    Powers(round0);
    var p, q := Pow2(FILTER_BITS - round0), Pow2(round0);
    assert v * p * q == v * (p * q) == 128 * v;
    ExactRounding(v, FILTER_BITS);
    ExactRounding(v * p, round0);
    ExactRounding(v, FILTER_BITS - round0);
  }

  lemma {:induction false} Factored(f: seq<int>, v: nat)
    requires |f| == 8
    ensures f[0] * v + f[1] * v + (f[2] * v + f[3] * v) + (f[4] * v + f[5] * v + (f[6] * v + f[7] * v))
         == (f[0] + f[1] + f[2] + f[3] + f[4] + f[5] + f[6] + f[7]) * v
  {
  }

  lemma {:induction false} Powers(n: nat)
    requires n <= FILTER_BITS
    ensures Pow2(FILTER_BITS - n) * Pow2(n) == 128 && Pow2(n) <= 128 && Pow2(7) == 128
  {
    assert Pow2(0) == 1 && Pow2(1) == 2 && Pow2(2) == 4 && Pow2(3) == 8;
    assert Pow2(4) == 16 && Pow2(5) == 32 && Pow2(6) == 64 && Pow2(7) == 128;
  }

  // Rounding a multiple of the power divides it.
  lemma {:induction false} ExactRounding(v: nat, n: nat)
    ensures RoundPowerOfTwo(v * Pow2(n), n) == v
  {
    hide Sra;
    SraDivides(v * Pow2(n) + Pow2(n) / 2, n);
    Quotient(v * Pow2(n) + Pow2(n) / 2, Pow2(n), v, Pow2(n) / 2);
  }

  // ----- lanes -----

  // Four multiply-adds and three additions.
  function DotLane(x: seq<u16>, c: seq<u16>): u32
    requires |x| == |c| == 8
  {
    AddDword(AddDword(MaddLane(x[0], c[0], x[1], c[1]), MaddLane(x[2], c[2], x[3], c[3])),
             AddDword(MaddLane(x[4], c[4], x[5], c[5]), MaddLane(x[6], c[6], x[7], c[7])))
  }

  // Taps in 16-bit lanes.
  function Stored(f: seq<int>): (c: seq<u16>)
    ensures |c| == |f|
  {
    seq(|f|, k requires 0 <= k < |f| => W16(f[k]))
  }

  lemma {:induction false} AddStored(a: int, b: int)
    ensures AddDword(W32(a), W32(b)) == W32(a + b)
  {
    var m := 0x1_0000_0000;
    Quotient(a % m, m, 0, a % m);
    Quotient(b % m, m, 0, b % m);
    SumModulo(W32(a), a, W32(b), m);
    SumModulo(W32(b), b, a, m);
  }

  lemma {:induction false} MaddStored(x: u16, f: int, y: u16, g: int)
    requires x < 0x8000 && y < 0x8000 && -TAP_MOST <= f <= TAP_MOST && -TAP_MOST <= g <= TAP_MOST
    ensures MaddLane(x, W16(f), y, W16(g)) == W32(f * x + g * y)
  {
    assert S16(x) == x && S16(y) == y && S16(W16(f)) == f && S16(W16(g)) == g;
    hide S16, W16, W32;
  }

  lemma {:induction false} DotLaneExact(f: seq<int>, x: seq<u16>)
    requires Taps(f) && |x| == 8 && Small(x)
    ensures DotLane(x, Stored(f)) == W32(Dot(f, x))
  {
    hide MaddLane, AddDword, W32, W16;
    MaddStored(x[0], f[0], x[1], f[1]);
    MaddStored(x[2], f[2], x[3], f[3]);
    MaddStored(x[4], f[4], x[5], f[5]);
    MaddStored(x[6], f[6], x[7], f[7]);
    var p, q, r, s := f[0] * x[0] + f[1] * x[1], f[2] * x[2] + f[3] * x[3], f[4] * x[4] + f[5] * x[5],
        f[6] * x[6] + f[7] * x[7];
    AddStored(p, q);
    AddStored(r, s);
    AddStored(p + q, r + s);
  }

  const PRODUCT_MOST := TAP_MOST * 0x7FFF

  lemma {:induction false} ProductBound(f: int, x: u16)
    requires -TAP_MOST <= f <= TAP_MOST && x < 0x8000
    ensures -PRODUCT_MOST <= f * x <= PRODUCT_MOST
  {
    MulMonotone(f, TAP_MOST, x);
    MulMonotone(-TAP_MOST, f, x);
    MulMonotone(x, 0x7FFF, TAP_MOST);
  }

  lemma {:induction false} DotBound(f: seq<int>, x: seq<u16>)
    requires Taps(f) && |x| == 8 && Small(x)
    ensures -8 * PRODUCT_MOST <= Dot(f, x) <= 8 * PRODUCT_MOST
  {
    ProductBound(f[0], x[0]);
    ProductBound(f[1], x[1]);
    ProductBound(f[2], x[2]);
    ProductBound(f[3], x[3]);
    ProductBound(f[4], x[4]);
    ProductBound(f[5], x[5]);
    ProductBound(f[6], x[6]);
    ProductBound(f[7], x[7]);
  }

  // The rounding constant in a lane, and rounding.
  function HalfOf(n: nat): u32 { W32(Pow2(n) / 2) }

  function RoundLane(x: u32, n: nat): u32 { SraLane(AddDword(x, HalfOf(n)), n) }

  lemma {:induction false} SraWithin(v: int, n: nat, b: int)
    requires b >= 0 && -b <= v <= b
    ensures -b <= Sra(v, n) <= b
    decreases n
  {
    if n > 0 {
      SraWithin(v / 2, n - 1, b);
    }
  }

  lemma {:induction false} RoundLaneExact(v: int, n: nat, b: int)
    requires b >= 0 && n <= FILTER_BITS && -b <= v <= b && b + 64 < 0x4000_0000
    ensures RoundLane(W32(v), n) == W32(RoundPowerOfTwo(v, n)) && -b - 64 <= RoundPowerOfTwo(v, n) <= b + 64
  {
    Powers(n);
    var half := Pow2(n) / 2;
    AddStored(v, half);
    Quotient(half, 0x1_0000_0000, 0, half);
    SignedStored(v + half);
    SraWithin(v + half, n, b + 64);
    hide W32, S32, Sra, Pow2;
  }

  // Packing with saturation and clipping to pixels.
  function PixelLane(x: u32, most: u16): u16 { MaxSignedLane(MinSignedLane(PackDword(x), most), 0) }

  lemma {:induction false} PixelLaneExact(v: int, most: u16)
    requires -0x4000_0000 <= v < 0x4000_0000 && most < 0x8000
    ensures PixelLane(W32(v), most) == Clamp(v, 0, most)
  {
    SignedStored(v);
    PackedSigned(Clamp(v, -0x8000, 0x7FFF));
    assert SatS16(v) == SatS16(Clamp(v, -0x8000, 0x7FFF));
    SmallLanes(most, 0);
    SmallLanes(0, 0);
    hide SatS16, S16, W32, S32;
  }

  lemma {:induction false} OnceExact(f: seq<int>, x: seq<u16>, bd: nat)
    requires Taps(f) && |x| == 8 && Small(x)
    ensures PixelLane(RoundLane(DotLane(x, Stored(f)), FILTER_BITS), MaxPixel(bd)) == RoundedOnce(f, x, bd)
  {
    hide DotLane, RoundLane, PixelLane, Dot, RoundPowerOfTwo, W32, Small;
    DotLaneExact(f, x);
    DotBound(f, x);
    RoundLaneExact(Dot(f, x), FILTER_BITS, 8 * PRODUCT_MOST);
    PixelLaneExact(RoundPowerOfTwo(Dot(f, x), FILTER_BITS), MaxPixel(bd));
  }

  lemma {:induction false} TwiceExact(f: seq<int>, x: seq<u16>, round0: nat, bd: nat)
    requires Taps(f) && |x| == 8 && Small(x) && round0 <= FILTER_BITS
    ensures PixelLane(RoundLane(RoundLane(DotLane(x, Stored(f)), round0), FILTER_BITS - round0), MaxPixel(bd))
        == RoundedTwice(f, x, round0, bd)
  {
    hide DotLane, RoundLane, PixelLane, Dot, RoundPowerOfTwo, W32, Small;
    DotLaneExact(f, x);
    DotBound(f, x);
    var b := 8 * PRODUCT_MOST;
    RoundLaneExact(Dot(f, x), round0, b);
    var once := RoundPowerOfTwo(Dot(f, x), round0);
    RoundLaneExact(once, FILTER_BITS - round0, b + 64);
    PixelLaneExact(RoundPowerOfTwo(once, FILTER_BITS - round0), MaxPixel(bd));
  }

  // ----- registers -----

  // prepare_coeffs_8tap: two taps in every 32-bit lane.
  function Coeffs(c: seq<u16>, k: nat): (r: seq<u16>)
    requires |c| == 8 && k < 4
    ensures |r| == 16
  {
    seq(16, i requires 0 <= i < 16 => if i % 2 == 0 then c[2 * k] else c[2 * k + 1])
  }

  // convolve16_8tap
  function Convolve16(s: seq<seq<u16>>, c: seq<u16>): (r: seq<u32>)
    requires |s| == 4 && |c| == 8 && |s[0]| == |s[1]| == |s[2]| == |s[3]| == 16
    ensures |r| == 8
  {
    AddEpi32(AddEpi32(MaddEpi16(s[0], Coeffs(c, 0)), MaddEpi16(s[1], Coeffs(c, 1))),
             AddEpi32(MaddEpi16(s[2], Coeffs(c, 2)), MaddEpi16(s[3], Coeffs(c, 3))))
  }

  lemma {:induction false} MaddCoeffs(s: seq<u16>, c: seq<u16>, k: nat, i: nat)
    requires |s| == 16 && |c| == 8 && k < 4 && i < 8
    ensures MaddEpi16(s, Coeffs(c, k))[i] == MaddLane(s[2 * i], c[2 * k], s[2 * i + 1], c[2 * k + 1])
  {
    hide MaddLane;
    assert Coeffs(c, k)[2 * i] == c[2 * k] && Coeffs(c, k)[2 * i + 1] == c[2 * k + 1];
  }

  lemma {:induction false} Convolve16At(s: seq<seq<u16>>, c: seq<u16>, i: nat)
    requires |s| == 4 && |c| == 8 && |s[0]| == |s[1]| == |s[2]| == |s[3]| == 16 && i < 8
    ensures Convolve16(s, c)[i]
         == DotLane([s[0][2 * i], s[0][2 * i + 1], s[1][2 * i], s[1][2 * i + 1], s[2][2 * i], s[2][2 * i + 1],
                     s[3][2 * i], s[3][2 * i + 1]], c)
  {
    hide MaddEpi16, MaddLane, AddDword, Coeffs;
    MaddCoeffs(s[0], c, 0, i);
    MaddCoeffs(s[1], c, 1, i);
    MaddCoeffs(s[2], c, 2, i);
    MaddCoeffs(s[3], c, 3, i);
  }

  function RoundEpi32(a: seq<u32>, n: nat): (r: seq<u32>)
    requires |a| == 8
    ensures |r| == 8
  {
    SraiEpi32(AddEpi32(a, Set1(HalfOf(n), 8)), n)
  }

  lemma {:induction false} RoundEpi32At(a: seq<u32>, n: nat, i: nat)
    requires |a| == 8 && i < 8
    ensures RoundEpi32(a, n)[i] == RoundLane(a[i], n)
  {
    hide SraLane, AddDword, HalfOf;
  }

  function ClipEpi16(a: seq<u16>, most: u16): (r: seq<u16>)
    requires |a| == 16
    ensures |r| == 16
  {
    MaxEpi16(MinEpi16(a, Set1(most, 16)), Set1(0, 16))
  }

  lemma {:induction false} ClipEpi16At(a: seq<u16>, most: u16, i: nat)
    requires |a| == 16 && i < 16
    ensures ClipEpi16(a, most)[i] == MaxSignedLane(MinSignedLane(a[i], most), 0)
  {
    hide MaxSignedLane, MinSignedLane;
  }
}
