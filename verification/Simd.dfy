/** Vector registers as sequences of lanes, and the intrinsics the kernels use, one function each. */
module Simd {
  import opened Arithmetic
  import opened MachineInts

  // ----- lanes -----

  // A 16-bit lane read as a signed number, and a number stored in a 16-bit lane.
  function S16(x: u16): int { if x < 0x8000 then x else x - 0x1_0000 }

  function W16(v: int): u16 { v % 0x1_0000 }

  function S32(x: u32): int { if x < 0x8000_0000 then x else x - 0x1_0000_0000 }

  function W32(v: int): u32 { v % 0x1_0000_0000 }

  function W64(v: int): u64 { v % 0x1_0000_0000_0000_0000 }

  function Clamp(v: int, low: int, high: int): int
    requires low <= high
  {
    if v < low then low else if v > high then high else v
  }

  function SatU8(v: int): u8 { Clamp(v, 0, 0xFF) }

  function SatU16(v: int): u16 { Clamp(v, 0, 0xFFFF) }

  // Signed saturation, stored in a lane.
  function SatS16(v: int): u16 { W16(Clamp(v, -0x8000, 0x7FFF)) }

  // ----- set and move -----

  function Set1<T>(x: T, n: nat): (r: seq<T>)
    ensures |r| == n
  {
    seq(n, i => x)
  }

  // Consecutive elements in memory.
  function Load<T>(memory: seq<T>, at: nat, n: nat): (r: seq<T>)
    requires at + n <= |memory|
    ensures |r| == n
  {
    memory[at..at + n]
  }

  // loadl_epi64: the low half from memory, the high half zero.
  function LoadLow(memory: seq<u16>, at: nat, n: nat): (r: seq<u16>)
    requires at + n <= |memory|
    ensures |r| == 2 * n
  {
    memory[at..at + n] + Set1(0, n)
  }

  // unpacklo_epi64 on a 128-bit register.
  function UnpackLoEpi64<T>(a: seq<T>, b: seq<T>): (r: seq<T>)
    requires |a| == |b| && |a| % 2 == 0
    ensures |r| == |a|
  {
    a[..|a| / 2] + b[..|b| / 2]
  }

  // A 256-bit register from its two halves, the high one first: set_m128i, loadu2.
  function SetM128i<T>(high: seq<T>, low: seq<T>): seq<T> { low + high }

  // A 64-bit quarter of a 256-bit register.
  function Quarter<T>(r: seq<T>, q: nat): (s: seq<T>)
    requires |r| % 4 == 0 && q < 4
    ensures |s| == |r| / 4
  {
    var n := |r| / 4;
    if q == 0 then r[..n] else if q == 1 then r[n..2 * n] else if q == 2 then r[2 * n..3 * n] else r[3 * n..]
  }

  // permute4x64: the quarters in the order given.
  function Permute4x64<T>(r: seq<T>, q0: nat, q1: nat, q2: nat, q3: nat): (s: seq<T>)
    requires |r| % 4 == 0 && q0 < 4 && q1 < 4 && q2 < 4 && q3 < 4
    ensures |s| == |r|
  {
    Quarter(r, q0) + Quarter(r, q1) + Quarter(r, q2) + Quarter(r, q3)
  }

  // permute2x128 with 0x20 and with 0x31: the low halves of two registers, and the high ones.
  function Permute2x128Lows<T>(a: seq<T>, b: seq<T>): (r: seq<T>)
    requires |a| == |b| && |a| % 2 == 0
    ensures |r| == |a|
  {
    a[..|a| / 2] + b[..|b| / 2]
  }

  function Permute2x128Highs<T>(a: seq<T>, b: seq<T>): (r: seq<T>)
    requires |a| == |b| && |a| % 2 == 0
    ensures |r| == |a|
  {
    a[|a| / 2..] + b[|b| / 2..]
  }

  // ----- lane by lane -----

  function SubsLane(x: u16, y: u16): u16 { SatU16(x - y) }

  function AddsLane(x: u16, y: u16): u16 { SatU16(x + y) }

  function AddsSignedLane(x: u16, y: u16): u16 { SatS16(S16(x) + S16(y)) }

  function MinSignedLane(x: u16, y: u16): u16 { if S16(x) < S16(y) then x else y }

  function SubLane(x: u16, y: u16): u16 { W16(x - y) }

  function Down(x: nat, n: nat): (y: nat)
    ensures y <= x
  {
    if n == 0 then x else Down(x / 2, n - 1)
  }

  // Logical shift right: zero from sixteen on.
  function ShiftLane(x: u16, n: nat): u16 { if n > 15 then 0 else Down(x, n) }

  lemma {:induction false} SmallSigned(x: u16)
    requires x < 0x8000
    ensures S16(x) == x
  {
  }

  // Lanes below 0x8000 behave as plain numbers.
  lemma {:induction false} SmallLanes(x: u16, y: u16)
    ensures x + y < 0x8000 ==> AddsSignedLane(x, y) == x + y
    ensures x < 0x8000 && y < 0x8000 ==> MinSignedLane(x, y) == Min(x, y)
    ensures y <= x ==> SubLane(x, y) == x - y
    ensures x <= 0xFF ==> PackLane(x) == x
    ensures W16(x) == x
    ensures x < 0x8000 ==> S16(x) == x && SatS16(x) == x
  {
  }

  function SubsEpu16(a: seq<u16>, b: seq<u16>): (r: seq<u16>)
    requires |a| == |b|
    ensures |r| == |a|
  {
    seq(|a|, i requires 0 <= i < |a| => SubsLane(a[i], b[i]))
  }

  function AddsEpu16(a: seq<u16>, b: seq<u16>): (r: seq<u16>)
    requires |a| == |b|
    ensures |r| == |a|
  {
    seq(|a|, i requires 0 <= i < |a| => AddsLane(a[i], b[i]))
  }

  function MaxEpu16(a: seq<u16>, b: seq<u16>): (r: seq<u16>)
    requires |a| == |b|
    ensures |r| == |a|
  {
    seq(|a|, i requires 0 <= i < |a| => if a[i] < b[i] then b[i] else a[i])
  }

  function MinEpu16(a: seq<u16>, b: seq<u16>): (r: seq<u16>)
    requires |a| == |b|
    ensures |r| == |a|
  {
    seq(|a|, i requires 0 <= i < |a| => if a[i] < b[i] then a[i] else b[i])
  }

  function AddsEpi16(a: seq<u16>, b: seq<u16>): (r: seq<u16>)
    requires |a| == |b|
    ensures |r| == |a|
  {
    seq(|a|, i requires 0 <= i < |a| => AddsSignedLane(a[i], b[i]))
  }

  function MinEpi16(a: seq<u16>, b: seq<u16>): (r: seq<u16>)
    requires |a| == |b|
    ensures |r| == |a|
  {
    seq(|a|, i requires 0 <= i < |a| => MinSignedLane(a[i], b[i]))
  }

  function SubEpi16(a: seq<u16>, b: seq<u16>): (r: seq<u16>)
    requires |a| == |b|
    ensures |r| == |a|
  {
    seq(|a|, i requires 0 <= i < |a| => SubLane(a[i], b[i]))
  }

  function SrliEpi16(a: seq<u16>, n: nat): (r: seq<u16>)
    ensures |r| == |a|
  {
    seq(|a|, i requires 0 <= i < |a| => ShiftLane(a[i], n))
  }

  // ----- packing -----

  function PackLane(x: u16): u8 { SatU8(S16(x)) }

  function Packed(a: seq<u16>): (r: seq<u8>)
    ensures |r| == |a|
  {
    seq(|a|, i requires 0 <= i < |a| => PackLane(a[i]))
  }

  // packus_epi16: signed 16-bit lanes to bytes with unsigned saturation, half by half.
  function PackusEpi16(a: seq<u16>, b: seq<u16>): (r: seq<u8>)
    requires |a| == |b| == 16
    ensures |r| == 32
  {
    Packed(a[..8]) + Packed(b[..8]) + Packed(a[8..]) + Packed(b[8..])
  }

  // The quarters of a packed register are put back in order by 0xd8.
  lemma {:induction false} PackInOrder(a: seq<u16>, b: seq<u16>)
    requires |a| == |b| == 16
    ensures Permute4x64(PackusEpi16(a, b), 0, 2, 1, 3) == Packed(a + b)
  {
  }

  // ----- bytes -----

  function S8(x: u8): int { if x < 0x80 then x else x - 0x100 }

  function W8(v: int): u8 { v % 0x100 }

  // A 256-bit register whose low half is given; the cast leaves the high half undefined.
  function Cast128To256<T>(low: seq<T>, junk: seq<T>): seq<T> { low + junk }

  // Consecutive bytes read as 16-bit lanes.
  function AsWords(b: seq<u8>): (r: seq<u16>)
    requires |b| % 2 == 0
    ensures |r| == |b| / 2
  {
    seq(|b| / 2, i requires 0 <= i < |b| / 2 => Word(b[2 * i], b[2 * i + 1]))
  }

  function Word(low: u8, high: u8): u16 { low + 0x100 * high }

  // and with 0x00FF in every 16-bit lane
  function AndFF(a: seq<u16>): (r: seq<u16>)
    ensures |r| == |a|
  {
    seq(|a|, i requires 0 <= i < |a| => LowHalf(a[i]))
  }

  function LowHalf(x: u16): u8 { x % 0x100 }

  lemma {:induction false} LowOfWord(low: u8, high: u8)
    ensures LowHalf(Word(low, high)) == low
  {
  }

  function AddByte(x: u8, y: u8): u8 { W8(x + y) }

  function SubByte(x: u8, y: u8): u8 { W8(x - y) }

  function AvgByte(x: u8, y: u8): u8 { (x + y + 1) / 2 }

  function AvgWord(x: u16, y: u16): u16 { (x + y + 1) / 2 }

  function AddWord(x: u16, y: u16): u16 { W16(x + y) }

  function AddEpi8(a: seq<u8>, b: seq<u8>): (r: seq<u8>)
    requires |a| == |b|
    ensures |r| == |a|
  {
    seq(|a|, i requires 0 <= i < |a| => AddByte(a[i], b[i]))
  }

  function SubEpi8(a: seq<u8>, b: seq<u8>): (r: seq<u8>)
    requires |a| == |b|
    ensures |r| == |a|
  {
    seq(|a|, i requires 0 <= i < |a| => SubByte(a[i], b[i]))
  }

  function MaxEpu8(a: seq<u8>, b: seq<u8>): (r: seq<u8>)
    requires |a| == |b|
    ensures |r| == |a|
  {
    seq(|a|, i requires 0 <= i < |a| => if a[i] < b[i] then b[i] else a[i])
  }

  function MinEpu8(a: seq<u8>, b: seq<u8>): (r: seq<u8>)
    requires |a| == |b|
    ensures |r| == |a|
  {
    seq(|a|, i requires 0 <= i < |a| => if a[i] < b[i] then a[i] else b[i])
  }

  function AvgEpu8(a: seq<u8>, b: seq<u8>): (r: seq<u8>)
    requires |a| == |b|
    ensures |r| == |a|
  {
    seq(|a|, i requires 0 <= i < |a| => AvgByte(a[i], b[i]))
  }

  function AvgEpu16(a: seq<u16>, b: seq<u16>): (r: seq<u16>)
    requires |a| == |b|
    ensures |r| == |a|
  {
    seq(|a|, i requires 0 <= i < |a| => AvgWord(a[i], b[i]))
  }

  function AddEpi16(a: seq<u16>, b: seq<u16>): (r: seq<u16>)
    requires |a| == |b|
    ensures |r| == |a|
  {
    seq(|a|, i requires 0 <= i < |a| => AddWord(a[i], b[i]))
  }

  // srli_si128: bytes shifted down, zeros from above.
  function SrliSi128(a: seq<u8>, n: nat): (r: seq<u8>)
    requires n <= |a|
    ensures |r| == |a|
  {
    a[n..] + Set1(0, n)
  }

  // srli_si256: each half by itself.
  function SrliSi256(a: seq<u8>, n: nat): (r: seq<u8>)
    requires |a| == 32 && n <= 16
    ensures |r| == 32
  {
    SrliSi128(a[..16], n) + SrliSi128(a[16..], n)
  }

  // x[0], y[0], x[1], y[1], ...
  function Interleave<T>(x: seq<T>, y: seq<T>): (r: seq<T>)
    requires |x| == |y|
    ensures |r| == 2 * |x|
  {
    seq(2 * |x|, i requires 0 <= i < 2 * |x| => if i % 2 == 0 then x[i / 2] else y[i / 2])
  }

  // unpacklo, unpackhi of single lanes on a 128-bit register, and on a 256-bit one half by half.
  function UnpackLo<T>(a: seq<T>, b: seq<T>): (r: seq<T>)
    requires |a| == |b| && |a| % 2 == 0
    ensures |r| == |a|
  {
    Interleave(a[..|a| / 2], b[..|b| / 2])
  }

  function UnpackHi<T>(a: seq<T>, b: seq<T>): (r: seq<T>)
    requires |a| == |b| && |a| % 2 == 0
    ensures |r| == |a|
  {
    Interleave(a[|a| / 2..], b[|b| / 2..])
  }

  function UnpackLo256<T>(a: seq<T>, b: seq<T>): (r: seq<T>)
    requires |a| == |b| && |a| % 4 == 0
    ensures |r| == |a|
  {
    UnpackLo(a[..|a| / 2], b[..|b| / 2]) + UnpackLo(a[|a| / 2..], b[|b| / 2..])
  }

  function UnpackHi256<T>(a: seq<T>, b: seq<T>): (r: seq<T>)
    requires |a| == |b| && |a| % 4 == 0
    ensures |r| == |a|
  {
    UnpackHi(a[..|a| / 2], b[..|b| / 2]) + UnpackHi(a[|a| / 2..], b[|b| / 2..])
  }

  // maddubs: unsigned bytes times signed bytes, pairs added with signed saturation.
  function MaddubsLane(a0: u8, b0: u8, a1: u8, b1: u8): u16 { SatS16(PairSum(a0, S8(b0), a1, S8(b1))) }

  function PairSum(a0: int, b0: int, a1: int, b1: int): int { a0 * b0 + a1 * b1 }

  function MaddubsEpi16(a: seq<u8>, b: seq<u8>): (r: seq<u16>)
    requires |a| == |b| && |a| % 2 == 0
    ensures |r| == |a| / 2
  {
    seq(|a| / 2, i requires 0 <= i < |a| / 2 => MaddubsLane(a[2 * i], b[2 * i], a[2 * i + 1], b[2 * i + 1]))
  }

  // mulhrs: the rounded high half of signed products.
  function MulhrsLane(x: u16, y: u16): u16 { W16(RoundedHigh(S16(x), S16(y))) }

  function RoundedHigh(x: int, y: int): int { (x * y / 0x4000 + 1) / 2 }

  function MulhrsEpi16(a: seq<u16>, b: seq<u16>): (r: seq<u16>)
    requires |a| == |b|
    ensures |r| == |a|
  {
    seq(|a|, i requires 0 <= i < |a| => MulhrsLane(a[i], b[i]))
  }

  // yy_roundn_epu16, xx_roundn_epu16
  function RoundnEpu16(a: seq<u16>, bits: nat): (r: seq<u16>)
    requires bits > 0
    ensures |r| == |a|
  {
    AvgEpu16(SrliEpi16(a, bits - 1), Set1(0, |a|))
  }

  function PackusEpi16Half(a: seq<u16>, b: seq<u16>): (r: seq<u8>)
    requires |a| == |b| == 8
    ensures |r| == 16
  {
    Packed(a) + Packed(b)
  }

  // shuffle_epi8 with indexes below sixteen, and half by half on 256 bits.
  function ShuffleEpi8(a: seq<u8>, index: seq<nat>): (r: seq<u8>)
    requires |a| == |index| == 16 && forall i :: 0 <= i < 16 ==> index[i] < 16
    ensures |r| == 16
  {
    seq(16, i requires 0 <= i < 16 => a[index[i]])
  }

  function ShuffleEpi8Halves(a: seq<u8>, index: seq<nat>): (r: seq<u8>)
    requires |a| == 32 && |index| == 16 && forall i :: 0 <= i < 16 ==> index[i] < 16
    ensures |r| == 32
  {
    ShuffleEpi8(a[..16], index) + ShuffleEpi8(a[16..], index)
  }

  function UnpackHiEpi64<T>(a: seq<T>, b: seq<T>): (r: seq<T>)
    requires |a| == |b| && |a| % 2 == 0
    ensures |r| == |a|
  {
    a[|a| / 2..] + b[|b| / 2..]
  }

  // unpacklo_epi64, half by half.
  function UnpackLoEpi64Halves<T>(a: seq<T>, b: seq<T>): (r: seq<T>)
    requires |a| == |b| && |a| % 4 == 0
    ensures |r| == |a|
  {
    UnpackLoEpi64(a[..|a| / 2], b[..|b| / 2]) + UnpackLoEpi64(a[|a| / 2..], b[|b| / 2..])
  }

  // cvtepu8_epi16 of the low eight bytes.
  function CvtEpu8Epi16(a: seq<u8>): (r: seq<u16>)
    requires |a| == 16
    ensures |r| == 8
  {
    a[..8]
  }

  function AsBytes(w: seq<u16>): (r: seq<u8>)
    ensures |r| == 2 * |w|
  {
    seq(2 * |w|, i requires 0 <= i < 2 * |w| => if i % 2 == 0 then LowHalf(w[i / 2]) else HighHalf(w[i / 2]))
  }

  function HighHalf(x: u16): u8 { x / 0x100 }

  // The low quarters of the halves of two registers, put in order by 0xd8.
  lemma {:induction false} LowQuartersInOrder<T>(a: seq<T>, b: seq<T>)
    requires |a| == |b| == 32
    ensures Permute4x64(UnpackLoEpi64Halves(a, b), 0, 2, 1, 3) == a[..8] + a[16..24] + b[..8] + b[16..24]
  {
    var u := UnpackLoEpi64Halves(a, b);
    assert a[..16][..8] == a[..8] && b[..16][..8] == b[..8] && a[16..][..8] == a[16..24] && b[16..][..8] == b[16..24];
    assert u == a[..8] + b[..8] + (a[16..24] + b[16..24]);
    assert u[..8] == a[..8] && u[8..16] == b[..8] && u[16..24] == a[16..24] && u[24..] == b[16..24];
  }

  // Sums that fit their lane.
  lemma {:induction false} SmallSums(x: u8, y: u8)
    ensures x + y < 0x100 ==> AddByte(x, y) == x + y
    ensures AddWord(x, y) == x + y
  {
  }

  // Where the lanes of the halves of two registers are after unpacking.
  lemma {:induction false} UnpackedHalf<T>(a: seq<T>, b: seq<T>, n: nat, i: nat)
    requires |a| == |b| == 2 * n && i < n
    ensures UnpackLo(a, b)[2 * i] == a[i] && UnpackLo(a, b)[2 * i + 1] == b[i]
    ensures UnpackHi(a, b)[2 * i] == a[n + i] && UnpackHi(a, b)[2 * i + 1] == b[n + i]
  {
    hide Interleave;
    InterleavedAt(a[..n], b[..n], i);
    InterleavedAt(a[n..], b[n..], i);
  }

  // Where the lanes of two registers are after unpacking.
  lemma {:induction false} UnpackedAt<T>(a: seq<T>, b: seq<T>, i: nat)
    requires |a| == |b| == 32 && i < 8
    ensures var lo := UnpackLo256(a, b);
        lo[2 * i] == a[i] && lo[2 * i + 1] == b[i] && lo[16 + 2 * i] == a[16 + i]
        && lo[17 + 2 * i] == b[16 + i]
    ensures var hi := UnpackHi256(a, b);
        hi[2 * i] == a[8 + i] && hi[2 * i + 1] == b[8 + i]
        && hi[16 + 2 * i] == a[24 + i] && hi[17 + 2 * i] == b[24 + i]
  {
    hide UnpackLo, UnpackHi;
    UnpackedHalf(a[..16], b[..16], 8, i);
    UnpackedHalf(a[16..], b[16..], 8, i);
  }

  // The two halves of a 128-bit register, moved to the low quarters of the halves of a 256-bit one.
  lemma {:induction false} SpreadLow<T>(low: seq<T>, junk: seq<T>, i: nat)
    requires |low| == |junk| == 16 && i < 8
    ensures
      var s := Permute4x64(Cast128To256(low, junk), 0, 2, 1, 3);
      s[i] == low[i] && s[16 + i] == low[8 + i]
  {
  }

  // ----- 32-bit lanes -----

  // Arithmetic shift right.
  function Sra(v: int, n: nat): int
    decreases n
  {
    if n == 0 then v else Sra(v / 2, n - 1)
  }

  function SraLane(x: u32, n: nat): u32 { W32(Sra(S32(x), n)) }

  function AddDword(x: u32, y: u32): u32 { W32(x + y) }

  function SubDword(x: u32, y: u32): u32 { W32(x - y) }

  // What fits a lane is stored as it is, and sums that fit do not wrap.
  lemma {:induction false} Stored32(v: u32)
    ensures W32(v) == v
  {
  }

  lemma {:induction false} Stored64(v: u64)
    ensures W64(v) == v
  {
  }

  lemma {:induction false} WordsAdd(x: u16, y: u16)
    ensures x + y < 0x1_0000 ==> AddWord(x, y) == x + y
  {
  }

  lemma {:induction false} DwordsAdd(x: u32, y: u32)
    ensures x + y < 0x1_0000_0000 ==> AddDword(x, y) == x + y
  {
  }

  // packs: signed 32-bit lanes to signed 16-bit ones with saturation.
  function PackDword(x: u32): u16 { SatS16(S32(x)) }

  function Dword(low: u16, high: u16): u32 { low + 0x1_0000 * high }

  function MulloLane(x: u16, y: u16): u16 { LowWord(x * y) }

  function MulhiLane(x: u16, y: u16): u16 { HighWord(x * y) }

  function LowWord(v: int): u16 { v % 0x1_0000 }

  function HighWord(v: int): u16 { v / 0x1_0000 % 0x1_0000 }

  function MaxSignedLane(x: u16, y: u16): u16 { if S16(x) < S16(y) then y else x }

  function MaddLane(a0: u16, b0: u16, a1: u16, b1: u16): u32 { W32(PairSum(S16(a0), S16(b0), S16(a1), S16(b1))) }

  function MulloEpi16(a: seq<u16>, b: seq<u16>): (r: seq<u16>)
    requires |a| == |b|
    ensures |r| == |a|
  {
    seq(|a|, i requires 0 <= i < |a| => MulloLane(a[i], b[i]))
  }

  function MulhiEpu16(a: seq<u16>, b: seq<u16>): (r: seq<u16>)
    requires |a| == |b|
    ensures |r| == |a|
  {
    seq(|a|, i requires 0 <= i < |a| => MulhiLane(a[i], b[i]))
  }

  function MaxEpi16(a: seq<u16>, b: seq<u16>): (r: seq<u16>)
    requires |a| == |b|
    ensures |r| == |a|
  {
    seq(|a|, i requires 0 <= i < |a| => MaxSignedLane(a[i], b[i]))
  }

  function AsDwords(w: seq<u16>): (r: seq<u32>)
    requires |w| % 2 == 0
    ensures |r| == |w| / 2
  {
    seq(|w| / 2, i requires 0 <= i < |w| / 2 => Dword(w[2 * i], w[2 * i + 1]))
  }

  function AddEpi32(a: seq<u32>, b: seq<u32>): (r: seq<u32>)
    requires |a| == |b|
    ensures |r| == |a|
  {
    seq(|a|, i requires 0 <= i < |a| => AddDword(a[i], b[i]))
  }

  function SubEpi32(a: seq<u32>, b: seq<u32>): (r: seq<u32>)
    requires |a| == |b|
    ensures |r| == |a|
  {
    seq(|a|, i requires 0 <= i < |a| => SubDword(a[i], b[i]))
  }

  function SraiEpi32(a: seq<u32>, n: nat): (r: seq<u32>)
    ensures |r| == |a|
  {
    seq(|a|, i requires 0 <= i < |a| => SraLane(a[i], n))
  }

  // ----- 64-bit lanes -----

  function Qword(low: u32, high: u32): u64 { low + 0x1_0000_0000 * high }

  function AddQword(x: u64, y: u64): u64 { W64(x + y) }

  function AsQwords(w: seq<u32>): (r: seq<u64>)
    requires |w| % 2 == 0
    ensures |r| == |w| / 2
  {
    seq(|w| / 2, i requires 0 <= i < |w| / 2 => Qword(w[2 * i], w[2 * i + 1]))
  }

  function AddEpi64(a: seq<u64>, b: seq<u64>): (r: seq<u64>)
    requires |a| == |b|
    ensures |r| == |a|
  {
    seq(|a|, i requires 0 <= i < |a| => AddQword(a[i], b[i]))
  }

  function MaddEpi16(a: seq<u16>, b: seq<u16>): (r: seq<u32>)
    requires |a| == |b| && |a| % 2 == 0
    ensures |r| == |a| / 2
  {
    seq(|a| / 2, i requires 0 <= i < |a| / 2 => MaddLane(a[2 * i], b[2 * i], a[2 * i + 1], b[2 * i + 1]))
  }

  function PackedDwords(a: seq<u32>): (r: seq<u16>)
    ensures |r| == |a|
  {
    seq(|a|, i requires 0 <= i < |a| => PackDword(a[i]))
  }

  // packs_epi32, half by half.
  function PacksEpi32(a: seq<u32>, b: seq<u32>): (r: seq<u16>)
    requires |a| == |b| == 8
    ensures |r| == 16
  {
    PackedDwords(a[..4]) + PackedDwords(b[..4]) + PackedDwords(a[4..]) + PackedDwords(b[4..])
  }

  // Where the 16-bit lanes of two registers are after unpacking.
  lemma {:induction false} UnpackedWordsAt<T>(a: seq<T>, b: seq<T>, i: nat)
    requires |a| == |b| == 16 && i < 4
    ensures var lo := UnpackLo256(a, b);
        lo[2 * i] == a[i] && lo[2 * i + 1] == b[i] && lo[8 + 2 * i] == a[8 + i]
        && lo[9 + 2 * i] == b[8 + i]
    ensures var hi := UnpackHi256(a, b);
        hi[2 * i] == a[4 + i] && hi[2 * i + 1] == b[4 + i]
        && hi[8 + 2 * i] == a[12 + i] && hi[9 + 2 * i] == b[12 + i]
  {
    hide UnpackLo, UnpackHi;
    UnpackedHalf(a[..8], b[..8], 4, i);
    UnpackedHalf(a[8..], b[8..], 4, i);
  }

  // Packing undoes the order of unpacking.
  lemma {:induction false} PackedDwordsAt(lo: seq<u32>, hi: seq<u32>, i: nat)
    requires |lo| == |hi| == 8 && i < 4
    ensures
      var r := PacksEpi32(lo, hi);
      && r[i] == PackDword(lo[i]) && r[4 + i] == PackDword(hi[i]) && r[8 + i] == PackDword(lo[4 + i])
           && r[12 + i] == PackDword(hi[4 + i])
  {
    hide PackDword;
  }

  function AddsByte(x: u8, y: u8): u8 { SatU8(x + y) }

  function AddsEpu8(a: seq<u8>, b: seq<u8>): (r: seq<u8>)
    requires |a| == |b|
    ensures |r| == |a|
  {
    seq(|a|, i requires 0 <= i < |a| => AddsByte(a[i], b[i]))
  }

  // cvtepu8_epi16 of sixteen bytes.
  function CvtEpu8Epi16Wide(a: seq<u8>): (r: seq<u16>)
    requires |a| == 16
    ensures |r| == 16
  {
    a
  }

  // ----- bits, as arithmetic -----

  // Shift left of 16-bit lanes.
  function ShiftLeftLane(x: u16, n: nat): u16 { W16(x * Pow2(n)) }

  function SlliEpi16(a: seq<u16>, n: nat): (r: seq<u16>)
    ensures |r| == |a|
  {
    seq(|a|, i requires 0 <= i < |a| => ShiftLeftLane(a[i], n))
  }

  // and with 0xC0: the two high bits of a byte.
  function TopBits(x: u8): u8 { x / 0x40 * 0x40 }

  function AndC0(a: seq<u8>): (r: seq<u8>)
    ensures |r| == |a|
  {
    seq(|a|, i requires 0 <= i < |a| => TopBits(a[i]))
  }

  // packus_epi32: signed 32-bit lanes to 16 bits with unsigned saturation, half by half.
  function PackUnsignedDword(x: u32): u16 { SatU16(S32(x)) }

  function PackedUnsigned(a: seq<u32>): (r: seq<u16>)
    ensures |r| == |a|
  {
    seq(|a|, i requires 0 <= i < |a| => PackUnsignedDword(a[i]))
  }

  function PackusEpi32(a: seq<u32>, b: seq<u32>): (r: seq<u16>)
    requires |a| == |b| == 8
    ensures |r| == 16
  {
    PackedUnsigned(a[..4]) + PackedUnsigned(b[..4]) + PackedUnsigned(a[4..]) + PackedUnsigned(b[4..])
  }

  // Consecutive bytes read as 32-bit lanes.
  function AsDwordsOfBytes(b: seq<u8>): (r: seq<u32>)
    requires |b| % 4 == 0
    ensures |r| == |b| / 4
  {
    seq(|b| / 4, i requires 0 <= i < |b| / 4 => LittleEndian(b[4 * i], b[4 * i + 1], b[4 * i + 2], b[4 * i + 3]))
  }

  lemma {:induction false} AsBytesAt(w: seq<u16>, j: nat)
    requires j < |w|
    ensures AsBytes(w)[2 * j] == LowHalf(w[j]) && AsBytes(w)[2 * j + 1] == HighHalf(w[j])
  {
    hide LowHalf, HighHalf;
  }

  lemma {:induction false} InterleavedAt<T>(x: seq<T>, y: seq<T>, j: nat)
    requires |x| == |y| && j < |x|
    ensures Interleave(x, y)[2 * j] == x[j] && Interleave(x, y)[2 * j + 1] == y[j]
  {
  }

  // Part of what was loaded.
  lemma {:induction false} LoadPart<T>(memory: seq<T>, at: nat, n: nat, j: nat, k: nat)
    requires at + n <= |memory| && j + k <= n
    ensures Load(memory, at, n)[j..j + k] == Load(memory, at + j, k)
  {
    var part, piece := Load(memory, at, n)[j..j + k], Load(memory, at + j, k);
    forall i | 0 <= i < k
      ensures part[i] == piece[i]
    {
      assert part[i] == Load(memory, at, n)[j + i] == memory[at + (j + i)];
    }
  }
}
