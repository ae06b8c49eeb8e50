/** Rotating a word by its bits, as the code does, is the rotation of RFC 1321 in arithmetic. */
module Md5Rotation {
  import opened Arithmetic
  import opened MachineInts
  import opened Md5Rfc

  // ----- a word and its bits -----

  lemma {:induction false} BitsBack(b: bv32)
    ensures Bits(FromBits(b)) == b
  {
  }

  lemma {:induction false} Doubled(b: bv32)
    requires FromBits(b) < 0x8000_0000
    ensures FromBits(b << 1) == 2 * FromBits(b) && FromBits((b << 1) | 1) == 2 * FromBits(b) + 1
  {
  }

  // Some bits are those of the word, put together one by one; so the word's own bits are.
  lemma {:induction false} BitsOf(x: Word) returns (v: bv32)
    ensures FromBits(v) == x
    decreases x
  {
    hide FromBits;
    if x == 0 {
      v := 0;
      Zero();
    } else {
      v := BitsOf(x / 2);
      Doubled(v);
      v := if x % 2 == 0 then v << 1 else (v << 1) | 1;
    }
  }

  lemma {:induction false} Zero()
    ensures FromBits(0) == 0
  {
  }

  lemma {:induction false} WordBack(x: Word)
    ensures FromBits(Bits(x)) == x
  {
    hide FromBits, Bits;
    var v := BitsOf(x);
    BitsBack(v);
  }

  // ----- by one bit -----

  function Spin(b: bv32): bv32 { (b << 1) | (b >> 31) }

  function SpinBack(b: bv32): bv32 { (b << 31) | (b >> 1) }

  // The bit that leaves and those that stay, either way.
  function Top(b: bv32): bv32 { b >> 31 }

  function BelowTop(b: bv32): bv32 { b & 0x7FFF_FFFF }

  function Bottom(b: bv32): bv32 { b & 1 }

  function AboveBottom(b: bv32): bv32 { b >> 1 }

  lemma {:induction false} SpinJoined(b: bv32)
    ensures FromBits(Spin(b)) == FromBits(BelowTop(b)) * 2 + FromBits(Top(b))
  {
  }

  lemma {:induction false} SpinBackJoined(b: bv32)
    ensures FromBits(SpinBack(b)) == FromBits(Bottom(b)) * 0x8000_0000 + FromBits(AboveBottom(b))
  {
  }

  lemma {:induction false} SpinUndone(b: bv32)
    ensures SpinBack(Spin(b)) == b && Bottom(Spin(b)) == Top(b) && AboveBottom(Spin(b)) == BelowTop(b)
  {
  }

  // In numbers: twice what stays, and the bit that leaves.
  function Spun(x: nat): nat { if x < 0x8000_0000 then 2 * x else 2 * (x - 0x8000_0000) + 1 }

  lemma {:induction false} SpinIsSpun(b: bv32)
    ensures FromBits(Spin(b)) == Spun(FromBits(b))
  {
    hide FromBits, Spin, SpinBack, Top, BelowTop, Bottom, AboveBottom;
    SpinUndone(b);
    SpinJoined(b);
    SpinBackJoined(Spin(b));
  }

  lemma {:induction false} OnceSpun(x: Word)
    ensures RotateLeft(x, 1) == Spun(x)
  {
    WordPower();
    var high := if x < 0x8000_0000 then 0 else 1;
    assert Pow2(32) == 2 * Pow2(31) && Pow2(1) == 2;
    hide Pow2;
    RotationParts(x, 1, high, x - high * 0x8000_0000);
  }

  // One bit further.
  lemma {:induction false} SpunParts(high: nat, bit: nat, low: nat, p: nat, q: nat)
    requires p * q == 0x8000_0000 && high < p && low < q && bit < 2
    ensures Spun((bit * q + low) * p + high) == low * (2 * p) + (2 * high + bit)
  {
    MulMonotone(low + 1, q, p);
    assert (low + 1) * p == low * p + p && q * p == p * q;
    assert (bit * q + low) * p == bit * (p * q) + low * p;
    assert low * (2 * p) == 2 * (low * p);
  }

  lemma {:induction false} SpunOn(x: Word, s: nat)
    requires 0 < s < 31
    ensures RotateLeft(x, s + 1) == Spun(RotateLeft(x, s))
  {
    var p, q := Pow2(s), Pow2(31 - s);
    assert Pow2(32 - s) == 2 * q && Pow2(s + 1) == 2 * p;
    HalfPower(s);
    hide Pow2;
    var half, left := x / q, x % q;
    HalfParts(x, q, half, left);
    var high, bit := half / 2, half % 2;
    RotationParts(x, s, high, bit * q + left);
    RotationParts(x, s + 1, half, left);
    SpunParts(high, bit, left, p, q);
  }

  lemma {:induction false} HalfParts(x: nat, q: nat, half: int, left: int)
    requires q > 0 && half == x / q && left == x % q
    ensures half >= 0 && x == half * q + left
    ensures 0 <= half % 2 * q + left < 2 * q && x == half / 2 * (2 * q) + (half % 2 * q + left)
  {
    assert x == half * q + left;
    if half < 0 { MulMonotone(half, -1, q); }
    var high, bit := half / 2, half % 2;
    assert half == 2 * high + bit;
    assert (2 * high + bit) * q == high * (2 * q) + bit * q;
    if bit == 1 { assert bit * q == q; }
  }

  lemma {:induction false} HalfPower(s: nat)
    requires s < 32
    ensures Pow2(s) * Pow2(31 - s) == 0x8000_0000
  {
    PowersMultiply(s, 31 - s);
    WordPower();
    assert Pow2(32) == 2 * Pow2(31);
  }

  // ----- by any number of bits -----

  function Up(b: bv32, s: bv32): bv32
    requires s <= 32
  {
    b << s
  }

  function Down(b: bv32, s: bv32): bv32
    requires s <= 32
  {
    b >> s
  }

  function Joined(a: bv32, b: bv32): bv32 { a | b }

  // The rotation of the code: w << s | w >> (32 - s).
  function RotatedBits(b: bv32, s: bv32): bv32
    requires 0 < s < 32
  {
    Joined(Up(b, s), Down(b, 32 - s))
  }

  function Distance(s: nat): bv32
    requires s < 32
  {
    s as bv6 as bv32
  }

  lemma {:induction false} UpFurther(b: bv32, s: bv32)
    requires 0 < s < 31
    ensures Up(Up(b, s), 1) == Up(b, s + 1)
  {
  }

  // One bit more comes down.
  lemma {:induction false} DownFurther(b: bv32, s: bv32)
    requires 0 < s < 31
    ensures Down(b, 31 - s) == Joined(Up(Down(b, 32 - s), 1), Down(Up(b, s), 31))
    ensures Down(Down(b, 32 - s), 31) == 0
  {
  }

  lemma {:induction false} SpinParts(a: bv32, c: bv32)
    requires Down(c, 31) == 0
    ensures Spin(Joined(a, c)) == Joined(Up(a, 1), Joined(Up(c, 1), Down(a, 31)))
  {
  }

  lemma {:induction false} SpunFurther(b: bv32, s: bv32)
    requires 0 < s < 31
    ensures Spin(RotatedBits(b, s)) == RotatedBits(b, s + 1)
  {
    hide Up, Down, Joined, Spin;
    UpFurther(b, s);
    DownFurther(b, s);
    SpinParts(Up(b, s), Down(b, 32 - s));
    assert 32 - (s + 1) == 31 - s;
  }

  lemma {:induction false} SpunOnce(b: bv32)
    ensures Spin(b) == RotatedBits(b, 1)
  {
  }

  lemma {:induction false} Distances(s: nat)
    requires s < 32
    ensures s > 0 ==> 0 < Distance(s) < 32
    ensures s == 1 ==> Distance(s) == 1
    ensures 0 < s < 31 ==> Distance(s) < 31 && Distance(s + 1) == Distance(s) + 1
  {
  }

  function Rotate(x: Word, s: nat): Word
    requires 0 < s < 32
  {
    Distances(s);
    FromBits(RotatedBits(Bits(x), Distance(s)))
  }

  /** The rotation of the code by any distance is that of the RFC. */
  lemma {:induction false} RotateIsLeft(x: Word, s: nat)
    requires 0 < s < 32
    ensures Rotate(x, s) == RotateLeft(x, s)
    decreases s
  {
    hide FromBits, Bits, RotatedBits, Distance, Spin, RotateLeft;
    var b := Bits(x);
    WordBack(x);
    Distances(s);
    if s == 1 {
      SpunOnce(b);
      SpinIsSpun(b);
      OnceSpun(x);
    } else {
      Distances(s - 1);
      RotateIsLeft(x, s - 1);
      SpunFurther(b, Distance(s - 1));
      SpinIsSpun(RotatedBits(b, Distance(s - 1)));
      SpunOn(x, s - 1);
    }
  }
}
