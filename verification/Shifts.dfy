/** Arithmetic shifts, rounding by them, and saturation hidden by a later clip. */
module Shifts {
  import opened Arithmetic
  import opened MachineInts
  import opened Simd

  function RoundPowerOfTwo(v: int, n: nat): int { Sra(v + Pow2(n) / 2, n) }

  lemma {:induction false} SraTwice(v: int, m: nat, n: nat)
    ensures Sra(v, m + n) == Sra(Sra(v, m), n)
    decreases m
  {
    if m > 0 {
      SraTwice(v / 2, m - 1, n);
    }
  }

  lemma {:induction false} HalveLess(v: int, k: int)
    ensures (v - 2 * k) / 2 == v / 2 - k
  {
  }

  lemma {:induction false} SraLess(v: int, k: int, n: nat)
    ensures Sra(v - k * Pow2(n), n) == Sra(v, n) - k
    decreases n
  {
    if n > 0 {
      assert k * Pow2(n) == 2 * (k * Pow2(n - 1));
      HalveLess(v, k * Pow2(n - 1));
      SraLess(v / 2, k, n - 1);
    }
  }

  lemma {:induction false} HalveThenDivide(v: int, p: nat)
    requires p > 0
    ensures v / 2 / p == v / (2 * p)
  {
    var h := v / 2;
    var q, r := h / p, h % p;
    assert h == q * p + r;
    assert v == 2 * h + v % 2;
    assert q * (2 * p) == 2 * (q * p);
    Quotient(v, 2 * p, q, 2 * r + v % 2);
  }

  // A shift divides, rounding down.
  lemma {:induction false} SraDivides(v: int, n: nat)
    ensures Sra(v, n) == v / Pow2(n)
    decreases n
  {
    if n > 0 {
      SraDivides(v / 2, n - 1);
      HalveThenDivide(v, Pow2(n - 1));
    } else {
      Quotient(v, 1, v, 0);
    }
  }

  // So does a logical shift.
  lemma {:induction false} DownDivides(x: nat, n: nat)
    ensures Down(x, n) == x / Pow2(n)
    decreases n
  {
    if n > 0 {
      DownDivides(x / 2, n - 1);
      HalveThenDivide(x, Pow2(n - 1));
    } else {
      Quotient(x, 1, x, 0);
    }
  }

  // Rounding divides, with halves rounded up.
  lemma {:induction false} RoundDivides(v: int, n: nat)
    ensures RoundPowerOfTwo(v, n) == (v + Pow2(n) / 2) / Pow2(n)
  {
    hide Pow2, Sra;
    SraDivides(v + Pow2(n) / 2, n);
  }

  lemma {:induction false} SraBounds(v: int, n: nat)
    requires -0x4000_0000 <= v < 0x4000_0000
    ensures -0x4000_0000 <= Sra(v, n) < 0x4000_0000
    decreases n
  {
    if n > 0 {
      SraBounds(v / 2, n - 1);
    }
  }

  lemma {:induction false} SignedStored(v: int)
    requires -0x4000_0000 <= v < 0x4000_0000
    ensures S32(W32(v)) == v
  {
  }

  lemma {:induction false} PackedSigned(v: int)
    requires -0x8000 <= v < 0x8000
    ensures S16(SatS16(v)) == v
  {
  }

  // Saturation to sixteen signed bits, then clipping to a smaller range, is clipping.
  lemma {:induction false} PackThenClip(v: int, high: u16)
    requires high < 0x8000
    ensures MinSignedLane(MaxSignedLane(SatS16(v), 0), high) == Clamp(v, 0, high)
  {
    PackedSigned(Clamp(v, -0x8000, 0x7FFF));
    assert SatS16(v) == SatS16(Clamp(v, -0x8000, 0x7FFF));
    SmallLanes(high, 0);
    SmallLanes(0, 0);
    hide SatS16, S16;
  }
}
