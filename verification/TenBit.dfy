/** Ten-bit pixels as an eight-bit plane and a plane of two extra bits, packed, compressed and unpacked. */
module TenBit {
  import opened Arithmetic
  import opened MachineInts
  import opened Plane
  import opened Simd

  // ----- one pixel -----

  // Eight bits and, in the high bits of a byte, two more.
  function Pixel10(b: u8, n: u8): u16 { 4 * b + n / 0x40 }

  // Four bytes of extra bits in one, the first in the high bits.
  function Squeezed(n0: u8, n1: u8, n2: u8, n3: u8): u8 {
    n0 / 0x40 * 0x40 + n1 / 0x40 * 0x10 + n2 / 0x40 * 4 + n3 / 0x40
  }

  // Pair k of a byte of four, in the high bits.
  function Extra(c: u8, k: nat): u8
    requires k < 4
  {
    (if k == 0 then c / 0x40 else if k == 1 then c / 0x10 % 4 else if k == 2 then c / 4 % 4 else c % 4) * 0x40
  }

  function Eight(x: u16): u8 { x / 4 % 0x100 }

  // The base-four digits of a byte.
  lemma {:induction false} Digits(a: nat, b: nat, c: nat, d: nat)
    requires a < 4 && b < 4 && c < 4 && d < 4
    ensures var v := a * 0x40 + b * 0x10 + c * 4 + d; v / 0x40 == a && v / 0x10 % 4 == b && v / 4 % 4 == c && v % 4 == d
  {
    var v := a * 0x40 + b * 0x10 + c * 4 + d;
    Quotient(v, 0x40, a, b * 0x10 + c * 4 + d);
    Quotient(v, 0x10, a * 4 + b, c * 4 + d);
    Quotient(v, 4, a * 0x10 + b * 4 + c, d);
  }

  // What is squeezed comes back, but for the bits that were never used.
  lemma {:induction false} SqueezedExtra(n0: u8, n1: u8, n2: u8, n3: u8)
    ensures
      var c := Squeezed(n0, n1, n2, n3);
      Extra(c, 0) == TopBits(n0) && Extra(c, 1) == TopBits(n1) && Extra(c, 2) == TopBits(n2)
          && Extra(c, 3) == TopBits(n3)
  {
    Digits(n0 / 0x40, n1 / 0x40, n2 / 0x40, n3 / 0x40);
  }

  lemma {:induction false} UnusedBits(b: u8, n: u8)
    ensures Pixel10(b, TopBits(n)) == Pixel10(b, n) && Eight(Pixel10(b, n)) == b && Pixel10(b, n) < 0x400
  {
  }

  // ----- the lanes -----

  lemma {:induction false} PackLaneIsPixel(b: u8, n: u8)
    ensures ShiftLane(Word(n, b), 6) == Pixel10(b, n)
  {
    var x := Word(n, b);
    assert Down(x, 6) == Down(x / 2, 5) == Down(x / 2 / 2, 4) == Down(x / 2 / 2 / 2, 3);
    var y := x / 8;
    assert Down(y, 3) == Down(y / 2, 2) == Down(y / 2 / 2, 1) == y / 2 / 2 / 2;
  }

  // A byte shifted within its word: bits of the low byte enter the high one below.
  lemma {:induction false} ShiftedWord(low: u8, high: u8, m: nat, a: nat, r: nat, e: nat, s: nat)
    requires (m == 4 || m == 16 || m == 64) && m * low == 0x100 * a + m * r && m * high == 0x100 * e + m * s
    requires a < m && m * r < 0x100 && m * s + m <= 0x100
    ensures var w := W16(Word(low, high) * m); LowHalf(w) == m * r && HighHalf(w) == m * s + a
  {
    var v, t := Word(low, high) * m, 0x100 * (m * s + a) + m * r;
    assert v == m * low + 0x100 * (m * high);
    Quotient(v, 0x1_0000, e, t);
    Quotient(t, 0x100, m * s + a, m * r);
  }

  // The two bits kept are those of the byte itself.
  lemma {:induction false} ShiftedBytes(low: u8, high: u8)
    ensures var w := ShiftLeftLane(Word(low, high), 2);
        TopBits(LowHalf(w)) == Extra(low, 1)
        && TopBits(HighHalf(w)) == Extra(high, 1)
    ensures var w := ShiftLeftLane(Word(low, high), 4);
        TopBits(LowHalf(w)) == Extra(low, 2)
        && TopBits(HighHalf(w)) == Extra(high, 2)
    ensures var w := ShiftLeftLane(Word(low, high), 6);
        TopBits(LowHalf(w)) == Extra(low, 3)
        && TopBits(HighHalf(w)) == Extra(high, 3)
  {
    assert Pow2(2) == 4 && Pow2(4) == 16 && Pow2(6) == 64;
    ShiftedWord(low, high, 4, low / 0x40, low % 0x40, high / 0x40, high % 0x40);
    ShiftedWord(low, high, 16, low / 0x10, low % 0x10, high / 0x10, high % 0x10);
    ShiftedWord(low, high, 64, low / 4, low % 4, high / 4, high % 4);
    KeptBits(low, 0);
    KeptBits(high, low);
    hide W16, Word, LowHalf, HighHalf, TopBits, Extra, Pow2;
  }

  lemma {:induction false} KeptBits(x: u8, below: u8)
    ensures TopBits(4 * (x % 0x40)) == Extra(x, 1) == TopBits(4 * (x % 0x40) + below / 0x40)
    ensures TopBits(16 * (x % 0x10)) == Extra(x, 2) == TopBits(16 * (x % 0x10) + below / 0x10)
    ensures TopBits(64 * (x % 4)) == Extra(x, 3) == TopBits(64 * (x % 4) + below / 4)
  {
    var a, b, c, d := x / 0x40, x / 0x10 % 4, x / 4 % 4, x % 4;
    FourDigits(x);
    Quotient(x, 0x40, a, b * 0x10 + c * 4 + d);
    Quotient(x, 0x10, a * 4 + b, c * 4 + d);
    Kept(b, 16 * c + 4 * d);
    Kept(b, 16 * c + 4 * d + below / 0x40);
    Kept(c, 16 * d);
    Kept(c, 16 * d + below / 0x10);
    Kept(d, 0);
    Kept(d, below / 4);
    hide TopBits;
  }

  lemma {:induction false} Kept(a: nat, rest: nat)
    requires a < 4 && rest < 0x40
    ensures TopBits(0x40 * a + rest) == 0x40 * a
  {
    Quotient(0x40 * a + rest, 0x40, a, rest);
  }

  lemma {:induction false} FourDigits(x: u8)
    ensures x == x / 0x40 * 0x40 + x / 0x10 % 4 * 0x10 + x / 4 % 4 * 4 + x % 4
  {
  }

  // The four masks and shifts of a 32-bit lane; the bits they leave do not overlap.
  function SqueezedLane(v: u32): u32 {
    v / 0x40 % 4 * 0x40 + v / 0x400 / 0x10 % 4 * 0x10 + v / 0x10_0000 / 4 % 4 * 4 + v / 0x4000_0000 % 4
  }

  lemma {:induction false} LaneIsSqueezed(n0: u8, n1: u8, n2: u8, n3: u8)
    ensures SqueezedLane(LittleEndian(n0, n1, n2, n3)) == Squeezed(n0, n1, n2, n3)
  {
    LowPairs(n0, n1, n2, n3);
    HighPairs(n0, n1, n2, n3);
    hide LittleEndian;
  }

  lemma {:induction false} LowPairs(n0: u8, n1: u8, n2: u8, n3: u8)
    ensures var v := LittleEndian(n0, n1, n2, n3); v / 0x40 % 4 == n0 / 0x40 && v / 0x400 / 0x10 % 4 == n1 / 0x40
  {
    var v := LittleEndian(n0, n1, n2, n3);
    assert v == n0 + 0x100 * n1 + 0x1_0000 * n2 + 0x100_0000 * n3;
    Quotient(v, 0x40, n0 / 0x40 + 4 * (n1 + 0x100 * n2 + 0x1_0000 * n3), n0 % 0x40);
    Quotient(v, 0x400, n1 / 4 + 0x40 * n2 + 0x4000 * n3, 0x100 * (n1 % 4) + n0);
    Quotient(v / 0x400, 0x10, n1 / 0x40 + 4 * (n2 + 0x100 * n3), n1 / 4 % 0x10);
    LastDigit(n0 / 0x40, n1 + 0x100 * n2 + 0x1_0000 * n3);
    LastDigit(n1 / 0x40, n2 + 0x100 * n3);
  }

  lemma {:induction false} HighPairs(n0: u8, n1: u8, n2: u8, n3: u8)
    ensures var v := LittleEndian(n0, n1, n2, n3);
        v / 0x10_0000 / 4 % 4 == n2 / 0x40
        && v / 0x4000_0000 % 4 == n3 / 0x40
  {
    var v := LittleEndian(n0, n1, n2, n3);
    assert v == n0 + 0x100 * n1 + 0x1_0000 * n2 + 0x100_0000 * n3;
    Quotient(v, 0x10_0000, n2 / 0x10 + 0x10 * n3, 0x1_0000 * (n2 % 0x10) + 0x100 * n1 + n0);
    Quotient(v / 0x10_0000, 4, n2 / 0x40 + 4 * n3, n2 / 0x10 % 4);
    Quotient(v, 0x4000_0000, n3 / 0x40, 0x100_0000 * (n3 % 0x40) + 0x1_0000 * n2 + 0x100 * n1 + n0);
    LastDigit(n2 / 0x40, n3);
    LastDigit(n3 / 0x40, 0);
  }

  lemma {:induction false} LastDigit(a: nat, rest: nat)
    requires a < 4
    ensures (a + 4 * rest) % 4 == a
  {
  }

  // ----- rows -----

  ghost function PackedRow(b: seq<u8>, n: seq<u8>): (r: seq<u16>)
    requires |b| == |n|
    ensures |r| == |b|
  {
    seq(|b|, i requires 0 <= i < |b| => Pixel10(b[i], n[i]))
  }

  ghost function SqueezedRow(n: seq<u8>): (c: seq<u8>)
    requires |n| % 4 == 0
    ensures |c| == |n| / 4
  {
    seq(|n| / 4, k requires 0 <= k < |n| / 4 => Squeezed(n[4 * k], n[4 * k + 1], n[4 * k + 2], n[4 * k + 3]))
  }

  ghost function ExpandedRow(c: seq<u8>): (n: seq<u8>)
    ensures |n| == 4 * |c|
  {
    seq(4 * |c|, i requires 0 <= i < 4 * |c| => Extra(c[i / 4], i % 4))
  }

  ghost function EightRow(x: seq<u16>): (b: seq<u8>)
    ensures |b| == |x|
  {
    seq(|x|, i requires 0 <= i < |x| => Eight(x[i]))
  }

  // Packing a plane that was squeezed and expanded is packing the plane itself.
  lemma {:induction false} SqueezedPacks(b: seq<u8>, n: seq<u8>)
    requires |b| == |n| && |n| % 4 == 0
    ensures PackedRow(b, ExpandedRow(SqueezedRow(n))) == PackedRow(b, n)
  {
    hide ExpandedRow, SqueezedRow, Pixel10, TopBits;
    forall i | 0 <= i < |n|
      ensures Pixel10(b[i], ExpandedRow(SqueezedRow(n))[i]) == Pixel10(b[i], n[i])
    {
      SqueezedAt(n, i / 4, i % 4);
      UnusedBits(b[i], n[i]);
    }
  }

  lemma {:induction false} SqueezedAt(n: seq<u8>, k: nat, j: nat)
    requires |n| % 4 == 0 && 4 * k + 4 <= |n| && j < 4
    ensures ExpandedRow(SqueezedRow(n))[4 * k + j] == TopBits(n[4 * k + j])
  {
    hide ExpandedRow, SqueezedRow, Squeezed, Extra, TopBits;
    ExpandedAt(SqueezedRow(n), k, j);
    SqueezedRowAt(n, k);
    SqueezedExtra(n[4 * k], n[4 * k + 1], n[4 * k + 2], n[4 * k + 3]);
    if j == 0 {
    } else if j == 1 {
    } else if j == 2 {
    } else {
    }
  }

  lemma {:induction false} SqueezedRowAt(n: seq<u8>, k: nat)
    requires |n| % 4 == 0 && 4 * k + 4 <= |n|
    ensures SqueezedRow(n)[k] == Squeezed(n[4 * k], n[4 * k + 1], n[4 * k + 2], n[4 * k + 3])
  {
    hide Squeezed;
  }

  lemma {:induction false} ExpandedAt(c: seq<u8>, k: nat, j: nat)
    requires k < |c| && j < 4
    ensures ExpandedRow(c)[4 * k + j] == Extra(c[k], j)
  {
    hide Extra;
  }

  // Unpacking what was packed gives the eight-bit plane back.
  lemma {:induction false} PackedUnpacks(b: seq<u8>, n: seq<u8>)
    requires |b| == |n|
    ensures EightRow(PackedRow(b, n)) == b
  {
    forall i | 0 <= i < |b|
      ensures EightRow(PackedRow(b, n))[i] == b[i]
    {
      UnusedBits(b[i], n[i]);
    }
  }

  // ----- registers -----

  // 32 pixels packed into two registers of words.
  function Pack32(n: seq<u8>, b: seq<u8>): (r: seq<u16>)
    requires |n| == |b| == 32
    ensures |r| == 32
  {
    var concat0 := SrliEpi16(AsWords(UnpackLo256(n, b)), 6);
    var concat1 := SrliEpi16(AsWords(UnpackHi256(n, b)), 6);
    SetM128i(concat1[..8], concat0[..8]) + SetM128i(concat1[8..], concat0[8..])
  }

  // 16 pixels in two 128-bit registers, and the low 8 or 4 of one.
  function Pack16(n: seq<u8>, b: seq<u8>): (r: seq<u16>)
    requires |n| == |b| == 16
    ensures |r| == 16
  {
    SrliEpi16(AsWords(UnpackLo(n, b)), 6) + SrliEpi16(AsWords(UnpackHi(n, b)), 6)
  }

  lemma {:induction false} Pack32At(n: seq<u8>, b: seq<u8>, i: nat)
    requires |n| == |b| == 32 && i < 8
    ensures
      var r := Pack32(n, b);
      && r[i] == Pixel10(b[i], n[i]) && r[8 + i] == Pixel10(b[8 + i], n[8 + i])
      && r[16 + i] == Pixel10(b[16 + i], n[16 + i]) && r[24 + i] == Pixel10(b[24 + i], n[24 + i])
  {
    hide UnpackLo256, UnpackHi256, Word, ShiftLane, Pixel10;
    UnpackedAt(n, b, i);
    PackLaneIsPixel(b[i], n[i]);
    PackLaneIsPixel(b[8 + i], n[8 + i]);
    PackLaneIsPixel(b[16 + i], n[16 + i]);
    PackLaneIsPixel(b[24 + i], n[24 + i]);
  }

  lemma {:induction false} Pack32IsRow(n: seq<u8>, b: seq<u8>)
    requires |n| == |b| == 32
    ensures Pack32(n, b) == PackedRow(b, n)
  {
    hide Pack32, Pixel10;
    forall i | 0 <= i < 32
      ensures Pack32(n, b)[i] == Pixel10(b[i], n[i])
    {
      Pack32At(n, b, i % 8);
    }
  }

  lemma {:induction false} Pack16IsRow(n: seq<u8>, b: seq<u8>)
    requires |n| == |b| == 16
    ensures Pack16(n, b) == PackedRow(b, n)
  {
    hide Pack16, Pixel10;
    forall i | 0 <= i < 16
      ensures Pack16(n, b)[i] == Pixel10(b[i], n[i])
    {
      Pack16At(n, b, i);
    }
  }

  lemma {:induction false} Pack16At(n: seq<u8>, b: seq<u8>, i: nat)
    requires |n| == |b| == 16 && i < 16
    ensures Pack16(n, b)[i] == Pixel10(b[i], n[i])
  {
    hide Word, ShiftLane, Pixel10;
    PackLaneIsPixel(b[i], n[i]);
  }

  // ----- squeezing and expanding in registers -----

  // One register of 32 bytes of extra bits to eight bytes; the upper half after the cast is undefined.
  function Squeeze32(n: seq<u8>, junk: seq<u32>): (c: seq<u8>)
    requires |n| == 32 && |junk| == 4
    ensures |c| == 32
  {
    var dwords := AsDwordsOfBytes(n);
    var ext0123 := seq(8, i requires 0 <= i < 8 => SqueezedLane(dwords[i]));
    var ext0123n := Cast128To256(ext0123[4..], junk);
    var extp := PackusEpi32(ext0123, ext0123n);
    PackusEpi16(extp, extp)
  }

  lemma {:induction false} Squeeze32IsRow(n: seq<u8>, junk: seq<u32>)
    requires |n| == 32 && |junk| == 4
    ensures Squeeze32(n, junk)[..8] == SqueezedRow(n)
  {
    hide SqueezedLane, Squeezed, LittleEndian, PackLane, PackUnsignedDword, Squeeze32;
    forall k | 0 <= k < 8
      ensures Squeeze32(n, junk)[k] == SqueezedRow(n)[k]
    {
      SqueezeAt(n, junk, k);
    }
  }

  lemma {:induction false} SqueezeAt(n: seq<u8>, junk: seq<u32>, k: nat)
    requires |n| == 32 && |junk| == 4 && k < 8
    ensures Squeeze32(n, junk)[k] == Squeezed(n[4 * k], n[4 * k + 1], n[4 * k + 2], n[4 * k + 3])
  {
    hide SqueezedLane, Squeezed, LittleEndian, PackLane, PackUnsignedDword;
    var v := Squeezed(n[4 * k], n[4 * k + 1], n[4 * k + 2], n[4 * k + 3]);
    LaneIsSqueezed(n[4 * k], n[4 * k + 1], n[4 * k + 2], n[4 * k + 3]);
    PackByte(v);
    var ext0123 := seq(8, i requires 0 <= i < 8 => SqueezedLane(AsDwordsOfBytes(n)[i]));
    var extp := PackusEpi32(ext0123, Cast128To256(ext0123[4..], junk));
    assert ext0123[k] == v;
    assert extp[k] == PackUnsignedDword(ext0123[k]) by { PackedLow(ext0123, junk, k); }
    hide PackusEpi32;
    assert PackusEpi16(extp, extp)[k] == PackLane(extp[k]);
  }

  lemma {:induction false} PackedLow(ext: seq<u32>, junk: seq<u32>, k: nat)
    requires |ext| == 8 && |junk| == 4 && k < 8
    ensures PackusEpi32(ext, Cast128To256(ext[4..], junk))[k] == PackUnsignedDword(ext[k])
  {
    hide PackUnsignedDword;
  }

  lemma {:induction false} PackByte(v: u8)
    ensures PackUnsignedDword(v) == v && PackLane(v) == v
  {
  }

  // Sixteen compressed bytes expanded to 64 bytes of extra bits, 32 in each result.
  function Ext(in2: seq<u8>, shift: nat): (e: seq<u8>)
    requires |in2| == 16
    ensures |e| == 16
  {
    AndC0(if shift == 0 then in2 else AsBytes(SlliEpi16(AsWords(in2), shift)))
  }

  function ExpandLow(in2: seq<u8>): (n: seq<u8>)
    requires |in2| == 16
    ensures |n| == 32
  {
    var ext01, ext23 := UnpackLo(Ext(in2, 0), Ext(in2, 2)), UnpackLo(Ext(in2, 4), Ext(in2, 6));
    SetM128i(AsBytes(UnpackHi(AsWords(ext01), AsWords(ext23))), AsBytes(UnpackLo(AsWords(ext01), AsWords(ext23))))
  }

  function ExpandHigh(in2: seq<u8>): (n: seq<u8>)
    requires |in2| == 16
    ensures |n| == 32
  {
    var ext01h, ext23h := UnpackHi(Ext(in2, 0), Ext(in2, 2)), UnpackHi(Ext(in2, 4), Ext(in2, 6));
    SetM128i(AsBytes(UnpackHi(AsWords(ext01h), AsWords(ext23h))), AsBytes(UnpackLo(AsWords(ext01h), AsWords(ext23h))))
  }

  lemma {:induction false} ExtAt(in2: seq<u8>, i: nat)
    requires |in2| == 16 && i < 16
    ensures Ext(in2, 0)[i] == Extra(in2[i], 0) && Ext(in2, 2)[i] == Extra(in2[i], 1)
    ensures Ext(in2, 4)[i] == Extra(in2[i], 2) && Ext(in2, 6)[i] == Extra(in2[i], 3)
  {
    hide Ext, TopBits, Extra, ShiftLeftLane, Word, LowHalf, HighHalf;
    var j := i / 2;
    ShiftedBytes(in2[2 * j], in2[2 * j + 1]);
    ExtPair(in2, j, 2);
    ExtPair(in2, j, 4);
    ExtPair(in2, j, 6);
    ExtZero(in2, i);
    if i == 2 * j {
    } else {
      assert i == 2 * j + 1;
    }
  }

  lemma {:induction false} ExtPair(in2: seq<u8>, j: nat, shift: nat)
    requires |in2| == 16 && j < 8 && shift > 0
    ensures
      var w := ShiftLeftLane(Word(in2[2 * j], in2[2 * j + 1]), shift);
      Ext(in2, shift)[2 * j] == TopBits(LowHalf(w)) && Ext(in2, shift)[2 * j + 1] == TopBits(HighHalf(w))
  {
    hide TopBits, ShiftLeftLane, Word, LowHalf, HighHalf;
    var words := SlliEpi16(AsWords(in2), shift);
    assert words[j] == ShiftLeftLane(Word(in2[2 * j], in2[2 * j + 1]), shift);
    hide SlliEpi16, AsWords, AsBytes;
    AsBytesAt(words, j);
  }

  lemma {:induction false} ExtZero(in2: seq<u8>, i: nat)
    requires |in2| == 16 && i < 16
    ensures Ext(in2, 0)[i] == Extra(in2[i], 0)
  {
    ZeroShift(in2[i]);
    hide TopBits, Extra;
  }

  lemma {:induction false} ZeroShift(x: u8)
    ensures TopBits(x) == Extra(x, 0)
  {
  }

  lemma {:induction false} HighOfWord(low: u8, high: u8)
    ensures HighHalf(Word(low, high)) == high
  {
  }

  // Four bytes for every compressed byte, in order.
  lemma {:induction false} QuadBytes(x: seq<u8>, y: seq<u8>, k: nat)
    requires |x| == |y| == 16 && k < 4
    ensures
      var lo := AsBytes(UnpackLo(AsWords(x), AsWords(y)));
      lo[4 * k] == x[2 * k] && lo[4 * k + 1] == x[2 * k + 1] && lo[4 * k + 2] == y[2 * k]
          && lo[4 * k + 3] == y[2 * k + 1]
    ensures
      var hi := AsBytes(UnpackHi(AsWords(x), AsWords(y)));
      hi[4 * k] == x[8 + 2 * k] && hi[4 * k + 1] == x[9 + 2 * k] && hi[4 * k + 2] == y[8 + 2 * k]
          && hi[4 * k + 3] == y[9 + 2 * k]
  {
    hide LowHalf, HighHalf, AsWords, AsBytes, Interleave;
    WordBytesOf(x, k);
    WordBytesOf(y, k);
    WordBytesOf(x, 4 + k);
    WordBytesOf(y, 4 + k);
    var wx, wy := AsWords(x), AsWords(y);
    InterleavedAt(wx[..4], wy[..4], k);
    InterleavedAt(wx[4..], wy[4..], k);
    AsBytesAt(UnpackLo(wx, wy), 2 * k);
    AsBytesAt(UnpackLo(wx, wy), 2 * k + 1);
    AsBytesAt(UnpackHi(wx, wy), 2 * k);
    AsBytesAt(UnpackHi(wx, wy), 2 * k + 1);
  }

  lemma {:induction false} WordBytesOf(x: seq<u8>, j: nat)
    requires |x| == 16 && j < 8
    ensures LowHalf(AsWords(x)[j]) == x[2 * j] && HighHalf(AsWords(x)[j]) == x[2 * j + 1]
  {
    LowOfWord(x[2 * j], x[2 * j + 1]);
    HighOfWord(x[2 * j], x[2 * j + 1]);
    hide Word, LowHalf, HighHalf;
  }

  lemma {:induction false} ExpandAt(in2: seq<u8>, k: nat, j: nat)
    requires |in2| == 16 && k < 8 && j < 4
    ensures ExpandLow(in2)[4 * k + j] == Extra(in2[k], j) && ExpandHigh(in2)[4 * k + j] == Extra(in2[8 + k], j)
  {
    hide Extra, Ext, AsWords, AsBytes, Interleave;
    var e0, e1, e2, e3 := Ext(in2, 0), Ext(in2, 2), Ext(in2, 4), Ext(in2, 6);
    ExtAt(in2, k);
    ExtAt(in2, 8 + k);
    InterleavedAt(e0[..8], e1[..8], k);
    InterleavedAt(e2[..8], e3[..8], k);
    InterleavedAt(e0[8..], e1[8..], k);
    InterleavedAt(e2[8..], e3[8..], k);
    QuadBytes(UnpackLo(e0, e1), UnpackLo(e2, e3), k % 4);
    QuadBytes(UnpackHi(e0, e1), UnpackHi(e2, e3), k % 4);
    hide UnpackLo, UnpackHi;
    if k < 4 {
      FourBytes(ExpandLow(in2), in2[k], k, j);
      FourBytes(ExpandHigh(in2), in2[8 + k], k, j);
    } else {
      FourBytes(ExpandLow(in2), in2[k], k, j);
      FourBytes(ExpandHigh(in2), in2[8 + k], k, j);
    }
  }

  lemma {:induction false} FourBytes(n: seq<u8>, c: u8, k: nat, j: nat)
    requires 4 * k + 4 <= |n| && j < 4
    requires n[4 * k] == Extra(c, 0) && n[4 * k + 1] == Extra(c, 1) && n[4 * k + 2] == Extra(c, 2)
        && n[4 * k + 3] == Extra(c, 3)
    ensures n[4 * k + j] == Extra(c, j)
  {
    hide Extra;
    if j == 0 {
    } else if j == 1 {
    } else if j == 2 {
    } else {
    }
  }

  // ----- blocks -----

  // Rows of bytes, one stride apart.
  datatype Bytes = Bytes(data: seq<u8>, stride: nat) {
    ghost predicate Has(w: nat, h: nat) { Readable(|data|, stride, w, h) }

    ghost function RowAt(w: nat, r: nat): (row: seq<u8>)
      requires Offset(r, stride) + w <= |data|
      ensures |row| == w
    {
      Row(data, stride, w, r)
    }
  }

  ghost function PackBlock(b: Bytes, n: Bytes, w: nat, h: nat): (rows: seq<seq<u16>>)
    requires b.Has(w, h) && n.Has(w, h)
    ensures |rows| == h && IsBlock(rows, w)
  {
    seq(h, r requires 0 <= r < h => PackedRow(b.RowAt(w, r), n.RowAt(w, r)))
  }

  ghost function SqueezeBlock(n: Bytes, w: nat, h: nat): (rows: seq<seq<u8>>)
    requires n.Has(w, h) && w % 4 == 0
    ensures |rows| == h && IsBlock(rows, w / 4)
  {
    seq(h, r requires 0 <= r < h => SqueezedRow(n.RowAt(w, r)))
  }

  ghost function ExpandPackBlock(b: Bytes, c: Bytes, w: nat, h: nat): (rows: seq<seq<u16>>)
    requires b.Has(w, h) && c.Has(w / 4, h) && w % 4 == 0
    ensures |rows| == h && IsBlock(rows, w)
  {
    seq(h, r requires 0 <= r < h => PackedRow(b.RowAt(w, r), ExpandedRow(c.RowAt(w / 4, r))))
  }

  // Compressing the extra bits and packing from the compressed plane is packing from the plane itself.
  lemma {:induction false} CompressedPackIsPack(before: seq<u8>, stride: nat, b: Bytes, n: Bytes, w: nat, h: nat)
    requires b.Has(w, h) && n.Has(w, h) && w % 4 == 0 && Fits(|before|, 0, stride, w / 4, h)
    ensures
      var c := Bytes(PutRows(before, 0, stride, w / 4, SqueezeBlock(n, w, h)), stride);
      c.Has(w / 4, h) && ExpandPackBlock(b, c, w, h) == PackBlock(b, n, w, h)
  {
    hide Offset, PutRows, PackedRow, ExpandedRow, SqueezedRow, Row;
    var rows := SqueezeBlock(n, w, h);
    var c := Bytes(PutRows(before, 0, stride, w / 4, rows), stride);
    forall r | 0 <= r < h
      ensures Offset(r, stride) + w / 4 <= |c.data| && PackedRow(b.RowAt(w, r), ExpandedRow(c.RowAt(w / 4, r)))
          == PackedRow(b.RowAt(w, r), n.RowAt(w, r))
    {
      RowOfBlock(before, stride, w / 4, rows, r);
      SqueezedPacks(b.RowAt(w, r), n.RowAt(w, r));
    }
  }

  // A piece of a row of width 4, 8, 16 or 32.
  function PackPiece(b: seq<u8>, n: seq<u8>): (r: seq<u16>)
    requires |b| == |n| && (|b| == 4 || |b| == 8 || |b| == 16 || |b| == 32)
    ensures |r| == |b|
  {
    if |b| == 32 then Pack32(n, b)
    else if |b| == 16 then Pack16(n, b)
    else
      var zeros := Set1(0, 16 - |b|);
      Pack16(n + zeros, b + zeros)[..|b|]
  }

  lemma {:induction false} PackPieceIsRow(b: seq<u8>, n: seq<u8>)
    requires |b| == |n| && (|b| == 4 || |b| == 8 || |b| == 16 || |b| == 32)
    ensures PackPiece(b, n) == PackedRow(b, n)
  {
    hide Pack32, Pack16, Pixel10;
    if |b| == 32 {
      Pack32IsRow(n, b);
    } else if |b| == 16 {
      Pack16IsRow(n, b);
    } else {
      var zeros := Set1(0, 16 - |b|);
      Pack16IsRow(n + zeros, b + zeros);
      forall i | 0 <= i < |b|
        ensures PackedRow(b + zeros, n + zeros)[i] == Pixel10(b[i], n[i])
      {
      }
    }
  }

  lemma {:induction false} PackedPiece(b: seq<u8>, n: seq<u8>, j: nat, k: nat)
    requires |b| == |n| && j + k <= |b|
    ensures PackedRow(b, n)[j..j + k] == PackedRow(b[j..j + k], n[j..j + k])
  {
    hide Pixel10;
  }

  // Two rows, piece by piece in turn.
  method PackTwoRows(out: array<u16>, at: nat, further: nat, b: Bytes, n: Bytes, atB: nat, atN: nat, w: nat, piece: nat)
    requires (piece == 4 || piece == 8 || piece == 16 || piece == 32) && w % piece == 0 && at + w <= further
        && further + w <= out.Length
    requires atB + w <= |b.data| && atB + b.stride + w <= |b.data| && atN + w <= |n.data|
        && atN + n.stride + w <= |n.data|
    modifies out
    ensures out[..] == Put(Put(old(out[..]), at, PackedRow(Load(b.data, atB, w), Load(n.data, atN, w))), further,
                           PackedRow(Load(b.data, atB + b.stride, w), Load(n.data, atN + n.stride, w)))
  {
    hide Put, PackedRow, PackPiece;
    ghost var before := out[..];
    ghost var x := PackedRow(Load(b.data, atB, w), Load(n.data, atN, w));
    ghost var y := PackedRow(Load(b.data, atB + b.stride, w), Load(n.data, atN + n.stride, w));
    PutMore(before, at, x, 0, 0);
    PutMore(before, further, y, 0, 0);
    var j := 0;
    while j < w
      invariant 0 <= j <= w && j % piece == 0 && out[..] == Put(Put(before, at, x[..j]), further, y[..j])
    {
      PieceFits(j, w, piece);
      TwoMore(before, at, x, further, y, j, piece);
      var p := PackLoaded(b.data, n.data, atB, atN, w, j, piece);
      var q := PackLoaded(b.data, n.data, atB + b.stride, atN + n.stride, w, j, piece);
      Store(out, at + j, p);
      Store(out, further + j, q);
      j := j + piece;
    }
    PutMore(before, at, x, 0, 0);
    PutMore(before, further, y, 0, 0);
  }

  lemma {:induction false} PieceFits(j: nat, w: nat, piece: nat)
    requires piece > 0 && j % piece == 0 && w % piece == 0 && j < w
    ensures j + piece <= w && (j + piece) % piece == 0
  {
    var a, c := j / piece, w / piece;
    assert j == a * piece && w == c * piece;
    if c <= a {
      MulMonotone(c, a, piece);
    }
    MulMonotone(a + 1, c, piece);
    assert (a + 1) * piece == j + piece;
    Quotient(j + piece, piece, a + 1, 0);
  }

  method PackLoaded(b: seq<u8>, n: seq<u8>, atB: nat, atN: nat, w: nat, j: nat, piece: nat) returns (p: seq<u16>)
    requires (piece == 4 || piece == 8 || piece == 16 || piece == 32) && j + piece <= w && atB + w <= |b|
        && atN + w <= |n|
    ensures p == PackedRow(Load(b, atB, w), Load(n, atN, w))[j..j + piece]
  {
    hide PackedRow, PackPiece;
    var x, y := Load(b, atB + j, piece), Load(n, atN + j, piece);
    PackedPiece(Load(b, atB, w), Load(n, atN, w), j, piece);
    LoadPart(b, atB, w, j, piece);
    LoadPart(n, atN, w, j, piece);
    PackPieceIsRow(x, y);
    p := PackPiece(x, y);
  }

  lemma {:induction false} PackBlockRow(b: Bytes, n: Bytes, w: nat, h: nat, r: nat)
    requires b.Has(w, h) && n.Has(w, h) && r < h
    ensures Offset(r, b.stride) + w <= |b.data| && Offset(r, n.stride) + w <= |n.data|
    ensures PackBlock(b, n, w, h)[r] == PackedRow(Load(b.data, Offset(r, b.stride), w),
                                                  Load(n.data, Offset(r, n.stride), w))
    ensures Offset(r + 1, b.stride) == Offset(r, b.stride) + b.stride
        && Offset(r + 1, n.stride) == Offset(r, n.stride) + n.stride
  {
    OffsetNext(r, b.stride);
    OffsetNext(r, n.stride);
    hide Offset, PackedRow;
  }

  lemma {:induction false} OffsetsStart(a: Bytes, b: Bytes)
    ensures Offset(0, a.stride) == 0 && Offset(0, b.stride) == 0
  {
  }

  // svt_enc_msb_pack2d_avx2_intrin_al: two rows a time, with the piece the width allows
  method MsbPack2d(out: array<u16>, outStride: nat, b: Bytes, n: Bytes, w: nat, h: nat)
    requires w > 0 && w % 4 == 0 && h % 2 == 0 && b.Has(w, h) && n.Has(w, h) && Fits(out.Length, 0, outStride, w, h)
    modifies out
    ensures out[..] == PutRows(old(out[..]), 0, outStride, w, PackBlock(b, n, w, h))
  {
    hide Offset, Put, PutRows, Written, PackBlock, PackedRow, Bytes.Has;
    var piece := PieceOf(w);
    ghost var before, rows := out[..], PackBlock(b, n, w, h);
    WrittenNone(before, 0, outStride, w, rows);
    OffsetsStart(b, n);
    var at, atB, atN, i := 0, 0, 0, 0;
    while i < h
      invariant 0 <= i <= h && i % 2 == 0 && at == Offset(i, outStride) && atB == Offset(i, b.stride)
          && atN == Offset(i, n.stride)
      invariant Written(out[..], before, 0, outStride, w, rows, i)
    {
      PackBlockRow(b, n, w, h, i);
      PackBlockRow(b, n, w, h, i + 1);
      WrittenWidth(out[..], before, 0, outStride, w, rows, i);
      WrittenNext(out[..], before, 0, outStride, w, rows, i);
      WrittenNext(Put(out[..], at, rows[i]), before, 0, outStride, w, rows, i + 1);
      PackTwoRows(out, at, at + outStride, b, n, atB, atN, w, piece);
      at, atB, atN, i := at + 2 * outStride, atB + 2 * b.stride, atN + 2 * n.stride, i + 2;
    }
    WrittenAll(out[..], before, 0, outStride, w, rows);
  }

  function PieceOf(w: nat): (piece: nat)
    requires w % 4 == 0
    ensures (piece == 4 || piece == 8 || piece == 16 || piece == 32) && w % piece == 0
  {
    if w == 4 || w == 8 || w == 16 then w
    else if w == 32 || w == 64 then 32
    else if w % 8 == 0 then 8
    else 4
  }

  // ----- compressing -----

  // A row of 32 or 64 bytes of extra bits.
  function SqueezePiece(n: seq<u8>, junk: seq<u32>): (c: seq<u8>)
    requires (|n| == 32 || |n| == 64) && |junk| == 4
    ensures |c| == |n| / 4
  {
    if |n| == 32 then Squeeze32(n, junk)[..8]
    else UnpackLoEpi64Halves(Squeeze32(n[..32], junk), Squeeze32(n[32..], junk))[..16]
  }

  lemma {:induction false} SqueezePieceIsRow(n: seq<u8>, junk: seq<u32>)
    requires (|n| == 32 || |n| == 64) && |junk| == 4
    ensures SqueezePiece(n, junk) == SqueezedRow(n)
  {
    hide Squeeze32, Squeezed, SqueezedRow;
    if |n| == 32 {
      Squeeze32IsRow(n, junk);
    } else {
      Squeeze32IsRow(n[..32], junk);
      Squeeze32IsRow(n[32..], junk);
      SqueezedConcat(n);
      LowHalves(Squeeze32(n[..32], junk), Squeeze32(n[32..], junk));
    }
  }

  lemma {:induction false} LowHalves(a: seq<u8>, b: seq<u8>)
    requires |a| == |b| == 32
    ensures UnpackLoEpi64Halves(a, b)[..16] == a[..8] + b[..8]
  {
    assert a[..16][..8] == a[..8] && b[..16][..8] == b[..8];
  }

  lemma {:induction false} SqueezedConcat(n: seq<u8>)
    requires |n| == 64
    ensures SqueezedRow(n) == SqueezedRow(n[..32]) + SqueezedRow(n[32..])
  {
    hide Squeezed;
  }

  // svt_c_pack_avx2_intrin; at 64x64 four rows go through a cache of 64 bytes first
  method CPack(out: array<u8>, outStride: nat, n: Bytes, cache: array<u8>, w: nat, h: nat, junk: seq<u32>)
    requires (w == 32 || w == 64) && n.Has(w, h) && Fits(out.Length, 0, outStride, w / 4, h) && |junk| == 4
    requires cache.Length >= 64 && cache != out
    modifies out, cache
    ensures out[..] == PutRows(old(out[..]), 0, outStride, w / 4, SqueezeBlock(n, w, h))
  {
    hide PutRows, SqueezeBlock, Bytes.Has, Fits;
    if w == 64 && h == 64 {
      CPackCached(out, outStride, n, cache, junk);
    } else {
      CPackDirect(out, outStride, n, w, h, junk);
    }
  }

  lemma {:induction false} SqueezeBlockRow(n: Bytes, w: nat, h: nat, r: nat)
    requires n.Has(w, h) && w % 4 == 0 && r < h
    ensures Offset(r, n.stride) + w <= |n.data| && Offset(r + 1, n.stride) == Offset(r, n.stride) + n.stride
    ensures SqueezeBlock(n, w, h)[r] == SqueezedRow(Load(n.data, Offset(r, n.stride), w))
  {
    OffsetNext(r, n.stride);
    hide Offset, SqueezedRow;
  }

  method CPackDirect(out: array<u8>, outStride: nat, n: Bytes, w: nat, h: nat, junk: seq<u32>)
    requires (w == 32 || w == 64) && n.Has(w, h) && Fits(out.Length, 0, outStride, w / 4, h) && |junk| == 4
    modifies out
    ensures out[..] == PutRows(old(out[..]), 0, outStride, w / 4, SqueezeBlock(n, w, h))
  {
    hide Offset, Put, PutRows, Written, SqueezeBlock, SqueezedRow, SqueezePiece, Bytes.Has;
    ghost var before, rows := out[..], SqueezeBlock(n, w, h);
    WrittenNone(before, 0, outStride, w / 4, rows);
    OffsetsStart(n, n);
    var at, atN := 0, 0;
    for y := 0 to h
      invariant at == Offset(y, outStride) && atN == Offset(y, n.stride)
          && Written(out[..], before, 0, outStride, w / 4, rows, y)
    {
      SqueezeBlockRow(n, w, h, y);
      WrittenNext(out[..], before, 0, outStride, w / 4, rows, y);
      SqueezePieceIsRow(Load(n.data, atN, w), junk);
      Store(out, at, SqueezePiece(Load(n.data, atN, w), junk));
      at, atN := at + outStride, atN + n.stride;
    }
    WrittenAll(out[..], before, 0, outStride, w / 4, rows);
  }

  // The cached path: rows gather in the cache and every fourth row stores all four.
  method CPackCached(out: array<u8>, outStride: nat, n: Bytes, cache: array<u8>, junk: seq<u32>)
    requires n.Has(64, 64) && Fits(out.Length, 0, outStride, 16, 64) && |junk| == 4 && cache.Length >= 64
        && cache != out
    modifies out, cache
    ensures out[..] == PutRows(old(out[..]), 0, outStride, 16, SqueezeBlock(n, 64, 64))
  {
    hide Offset, Put, PutRows, Written, SqueezeBlock, SqueezedRow, SqueezePiece, Bytes.Has;
    ghost var before, rows := out[..], SqueezeBlock(n, 64, 64);
    WrittenNone(before, 0, outStride, 16, rows);
    OffsetsStart(n, n);
    var at, atN := 0, 0;
    for y := 0 to 64
      invariant at == Offset(y / 4 * 4, outStride) && atN == Offset(y, n.stride)
      invariant Written(out[..], before, 0, outStride, 16, rows, y / 4 * 4)
      invariant Cached(cache[..], rows, y)
    {
      SqueezeBlockRow(n, 64, 64, y);
      SqueezePieceIsRow(Load(n.data, atN, 64), junk);
      CacheNext(cache[..], rows, y);
      Store(cache, 16 * (y % 4), SqueezePiece(Load(n.data, atN, 64), junk));
      if y % 4 == 3 {
        StoreFour(out, at, outStride, cache, before, rows, y - 3);
        at := at + 4 * outStride;
      }
      atN := atN + n.stride;
    }
    WrittenAll(out[..], before, 0, outStride, 16, rows);
  }

  // The rows since the last multiple of four are in the cache.
  ghost predicate Cached(cache: seq<u8>, rows: seq<seq<u8>>, y: nat)
    requires |cache| >= 64 && y <= |rows| && IsBlock(rows, 16)
  {
    forall k :: 0 <= k < y % 4 ==> Load(cache, 16 * k, 16) == rows[y / 4 * 4 + k]
  }

  lemma {:induction false} CacheNext(cache: seq<u8>, rows: seq<seq<u8>>, y: nat)
    requires |cache| >= 64 && y < |rows| && IsBlock(rows, 16) && Cached(cache, rows, y)
    ensures
      var after := Put(cache, 16 * (y % 4), rows[y]);
      Cached(after, rows, y + 1) && (y % 4 == 3 ==> forall k :: 0 <= k < 4 ==>
          Load(after, 16 * k, 16) == rows[y - 3 + k])
  {
    var after := Put(cache, 16 * (y % 4), rows[y]);
    forall k | 0 <= k <= y % 4
      ensures Load(after, 16 * k, 16) == rows[y / 4 * 4 + k]
    {
      if k < y % 4 {
        assert Load(cache, 16 * k, 16) == rows[y / 4 * 4 + k];
      }
    }
  }

  method StoreFour(out: array<u8>, at: nat, outStride: nat, cache: array<u8>, ghost before: seq<u8>,
                   ghost rows: seq<seq<u8>>, ghost y: nat)
    requires cache.Length >= 64 && cache != out && IsBlock(rows, 16) && y + 4 <= |rows|
    requires at == Offset(y, outStride) && Written(out[..], before, 0, outStride, 16, rows, y)
    requires forall k :: 0 <= k < 4 ==> Load(cache[..], 16 * k, 16) == rows[y + k]
    modifies out
    ensures Written(out[..], before, 0, outStride, 16, rows, y + 4) && Offset(y + 4, outStride) == at + 4 * outStride
  {
    hide Offset, Put, Written;
    var c0, c1 := Load(cache[..], 0, 32), Load(cache[..], 32, 32);
    LoadPart(cache[..], 0, 32, 0, 16);
    LoadPart(cache[..], 0, 32, 16, 16);
    LoadPart(cache[..], 32, 32, 0, 16);
    LoadPart(cache[..], 32, 32, 16, 16);
    CachedRows(cache[..], rows, y);
    WrittenNext(out[..], before, 0, outStride, 16, rows, y);
    Store(out, at, c0[..16]);
    WrittenNext(out[..], before, 0, outStride, 16, rows, y + 1);
    Store(out, at + outStride, c0[16..]);
    WrittenNext(out[..], before, 0, outStride, 16, rows, y + 2);
    Store(out, at + 2 * outStride, c1[..16]);
    WrittenNext(out[..], before, 0, outStride, 16, rows, y + 3);
    Store(out, at + 3 * outStride, c1[16..]);
  }

  lemma {:induction false} CachedRows(cache: seq<u8>, rows: seq<seq<u8>>, y: nat)
    requires |cache| >= 64 && y + 4 <= |rows| && forall k :: 0 <= k < 4 ==> Load(cache, 16 * k, 16) == rows[y + k]
    ensures Load(cache, 0, 16) == rows[y] && Load(cache, 16, 16) == rows[y + 1] && Load(cache, 32, 16) == rows[y + 2]
        && Load(cache, 48, 16) == rows[y + 3]
  {
    assert Load(cache, 16 * 0, 16) == rows[y + 0] && Load(cache, 16 * 1, 16) == rows[y + 1];
    assert Load(cache, 16 * 2, 16) == rows[y + 2] && Load(cache, 16 * 3, 16) == rows[y + 3];
  }

  // ----- packing from the compressed plane -----

  // Two rows of width 32 from eight compressed bytes each, in one register.
  lemma {:induction false} ExpandIsRow(in2: seq<u8>)
    requires |in2| == 16
    ensures ExpandLow(in2) == ExpandedRow(in2[..8]) && ExpandHigh(in2) == ExpandedRow(in2[8..])
  {
    hide Extra, ExpandLow, ExpandHigh;
    forall i | 0 <= i < 32
      ensures ExpandLow(in2)[i] == ExpandedRow(in2[..8])[i] && ExpandHigh(in2)[i] == ExpandedRow(in2[8..])[i]
    {
      ExpandAt(in2, i / 4, i % 4);
    }
  }

  lemma {:induction false} ExpandBlockRow(b: Bytes, c: Bytes, w: nat, h: nat, r: nat)
    requires b.Has(w, h) && c.Has(w / 4, h) && w % 4 == 0 && r < h
    ensures Offset(r, b.stride) + w <= |b.data| && Offset(r, c.stride) + w / 4 <= |c.data|
    ensures ExpandPackBlock(b, c, w, h)[r]
         == PackedRow(Load(b.data, Offset(r, b.stride), w), ExpandedRow(Load(c.data, Offset(r, c.stride), w / 4)))
    ensures Offset(r + 1, b.stride) == Offset(r, b.stride) + b.stride
        && Offset(r + 1, c.stride) == Offset(r, c.stride) + c.stride
  {
    OffsetNext(r, b.stride);
    OffsetNext(r, c.stride);
    hide Offset, PackedRow, ExpandedRow;
  }

  // svt_compressed_packmsb_avx2_intrin, width 32: two rows a time
  method CompressedPack32(out: array<u16>, outStride: nat, b: Bytes, c: Bytes, h: nat)
    requires h % 2 == 0 && b.Has(32, h) && c.Has(8, h) && Fits(out.Length, 0, outStride, 32, h)
    modifies out
    ensures out[..] == PutRows(old(out[..]), 0, outStride, 32, ExpandPackBlock(b, c, 32, h))
  {
    hide Offset, Put, PutRows, Written, ExpandPackBlock, PackedRow, ExpandedRow, Bytes.Has, Pack32, ExpandLow,
        ExpandHigh;
    ghost var before, rows := out[..], ExpandPackBlock(b, c, 32, h);
    WrittenNone(before, 0, outStride, 32, rows);
    OffsetsStart(b, c);
    var at, atB, atC, y := 0, 0, 0, 0;
    while y < h
      invariant 0 <= y <= h && y % 2 == 0 && at == Offset(y, outStride) && atB == Offset(y, b.stride)
          && atC == Offset(y, c.stride)
      invariant Written(out[..], before, 0, outStride, 32, rows, y)
    {
      ExpandBlockRow(b, c, 32, h, y);
      ExpandBlockRow(b, c, 32, h, y + 1);
      var in2 := Load(c.data, atC, 8) + Load(c.data, atC + c.stride, 8);
      ExpandIsRow(in2);
      var n0, n1 := ExpandLow(in2), ExpandHigh(in2);
      Pack32IsRow(n0, Load(b.data, atB, 32));
      Pack32IsRow(n1, Load(b.data, atB + b.stride, 32));
      WrittenNext(out[..], before, 0, outStride, 32, rows, y);
      Store(out, at, Pack32(n0, Load(b.data, atB, 32)));
      WrittenNext(out[..], before, 0, outStride, 32, rows, y + 1);
      Store(out, at + outStride, Pack32(n1, Load(b.data, atB + b.stride, 32)));
      at, atB, atC, y := at + 2 * outStride, atB + 2 * b.stride, atC + 2 * c.stride, y + 2;
    }
    WrittenAll(out[..], before, 0, outStride, 32, rows);
  }

  // A row of width 64 from sixteen compressed bytes.
  function PackWide(b: seq<u8>, in2: seq<u8>): (r: seq<u16>)
    requires |b| == 64 && |in2| == 16
    ensures |r| == 64
  {
    Pack32(ExpandLow(in2), b[..32]) + Pack32(ExpandHigh(in2), b[32..])
  }

  lemma {:induction false} WideExpand(b: seq<u8>, in2: seq<u8>)
    requires |b| == 64 && |in2| == 16
    ensures PackWide(b, in2) == PackedRow(b, ExpandedRow(in2))
  {
    hide Pack32, ExpandLow, ExpandHigh, PackedRow, ExpandedRow;
    ExpandIsRow(in2);
    Pack32IsRow(ExpandLow(in2), b[..32]);
    Pack32IsRow(ExpandHigh(in2), b[32..]);
    ExpandedConcat(in2);
    PackedConcat(b[..32], ExpandLow(in2), b[32..], ExpandHigh(in2));
    assert b[..32] + b[32..] == b;
  }

  lemma {:induction false} ExpandedConcat(c: seq<u8>)
    requires |c| == 16
    ensures ExpandedRow(c) == ExpandedRow(c[..8]) + ExpandedRow(c[8..])
  {
    hide Extra;
  }

  lemma {:induction false} PackedConcat(b: seq<u8>, n: seq<u8>, b2: seq<u8>, n2: seq<u8>)
    requires |b| == |n| && |b2| == |n2|
    ensures PackedRow(b + b2, n + n2) == PackedRow(b, n) + PackedRow(b2, n2)
  {
    hide Pixel10;
  }

  // Width 64: one row a time
  method CompressedPack64(out: array<u16>, outStride: nat, b: Bytes, c: Bytes, h: nat)
    requires b.Has(64, h) && c.Has(16, h) && Fits(out.Length, 0, outStride, 64, h)
    modifies out
    ensures out[..] == PutRows(old(out[..]), 0, outStride, 64, ExpandPackBlock(b, c, 64, h))
  {
    hide Offset, Put, PutRows, Written, ExpandPackBlock, PackedRow, ExpandedRow, Bytes.Has, PackWide;
    ghost var before, rows := out[..], ExpandPackBlock(b, c, 64, h);
    WrittenNone(before, 0, outStride, 64, rows);
    OffsetsStart(b, c);
    var at, atB, atC := 0, 0, 0;
    for y := 0 to h
      invariant at == Offset(y, outStride) && atB == Offset(y, b.stride) && atC == Offset(y, c.stride)
      invariant Written(out[..], before, 0, outStride, 64, rows, y)
    {
      ExpandBlockRow(b, c, 64, h, y);
      WrittenNext(out[..], before, 0, outStride, 64, rows, y);
      var in2 := Load(c.data, atC, 16);
      WideExpand(Load(b.data, atB, 64), in2);
      Store(out, at, PackWide(Load(b.data, atB, 64), in2));
      at, atB, atC := at + outStride, atB + b.stride, atC + c.stride;
    }
    WrittenAll(out[..], before, 0, outStride, 64, rows);
  }

  // ----- unpacking -----

  // Words shifted right by two, the low byte kept.
  function Shifted(x: seq<u16>): (r: seq<u16>)
    ensures |r| == |x|
  {
    AndFF(SrliEpi16(x, 2))
  }

  lemma {:induction false} EightLane(x: u16)
    ensures LowHalf(ShiftLane(x, 2)) == Eight(x) && PackLane(Eight(x)) == Eight(x)
  {
    assert Down(x, 2) == Down(x / 2, 1) == x / 2 / 2;
    SmallLanes(Eight(x), 0);
  }

  lemma {:induction false} PackedShifted(x: seq<u16>)
    ensures Packed(Shifted(x)) == EightRow(x)
  {
    hide LowHalf, ShiftLane, Eight, PackLane;
    forall i | 0 <= i < |x|
      ensures Packed(Shifted(x))[i] == EightRow(x)[i]
    {
      EightLane(x[i]);
    }
  }

  // Thirty-two words to bytes: packed half by half, stored quarter by quarter in the order 0, 2, 1, 3.
  function Unpack32(x: seq<u16>): (r: seq<u8>)
    requires |x| == 32
    ensures |r| == 32
  {
    Permute4x64(PackusEpi16(Shifted(x[..16]), Shifted(x[16..])), 0, 2, 1, 3)
  }

  lemma {:induction false} Unpack32IsRow(x: seq<u16>)
    requires |x| == 32
    ensures Unpack32(x) == EightRow(x)
  {
    hide Shifted, PackusEpi16, Permute4x64, Eight, PackLane;
    PackInOrder(Shifted(x[..16]), Shifted(x[16..]));
    PackedShifted(x[..16]);
    PackedShifted(x[16..]);
    EightConcat(x[..16], x[16..]);
    assert x[..16] + x[16..] == x;
    assert Packed(Shifted(x[..16]) + Shifted(x[16..])) == Packed(Shifted(x[..16])) + Packed(Shifted(x[16..]));
  }

  lemma {:induction false} EightConcat(x: seq<u16>, y: seq<u16>)
    ensures EightRow(x + y) == EightRow(x) + EightRow(y)
  {
    hide Eight;
  }

  // A piece of one or two rows: 64 and 32 words of a row, 16 of two rows, 8 or 4 of one row.
  function UnpackPiece(x: seq<u16>): (r: seq<u8>)
    requires |x| == 64 || |x| == 32 || |x| == 8 || |x| == 4
    ensures |r| == |x|
  {
    if |x| == 64 then Unpack32(x[..32]) + Unpack32(x[32..])
    else if |x| == 32 then Unpack32(x)
    else
      var low := Shifted(x + Set1(0, 8 - |x|));
      PackusEpi16Half(low, low)[..|x|]
  }

  lemma {:induction false} UnpackPieceIsRow(x: seq<u16>)
    requires |x| == 64 || |x| == 32 || |x| == 8 || |x| == 4
    ensures UnpackPiece(x) == EightRow(x)
  {
    hide Unpack32, Shifted, EightRow, PackLane;
    if |x| == 64 {
      Unpack32IsRow(x[..32]);
      Unpack32IsRow(x[32..]);
      EightConcat(x[..32], x[32..]);
      assert x[..32] + x[32..] == x;
    } else if |x| == 32 {
      Unpack32IsRow(x);
    } else {
      var zeros := Set1(0, 8 - |x|);
      PackedShifted(x + zeros);
      EightConcat(x, zeros);
    }
  }

  // Sixteen words of each of two rows in one register.
  lemma {:induction false} UnpackPair(x: seq<u16>, y: seq<u16>)
    requires |x| == |y| == 16
    ensures Unpack32(x + y)[..16] == EightRow(x) && Unpack32(x + y)[16..] == EightRow(y)
  {
    hide Unpack32, EightRow;
    Unpack32IsRow(x + y);
    EightConcat(x, y);
  }

  datatype Words = Words(data: seq<u16>, stride: nat) {
    ghost predicate Has(w: nat, h: nat) { Readable(|data|, stride, w, h) }
  }

  ghost function UnpackBlock(x: Words, w: nat, h: nat): (rows: seq<seq<u8>>)
    requires x.Has(w, h)
    ensures |rows| == h && IsBlock(rows, w)
  {
    seq(h, r requires 0 <= r < h => EightRow(Row(x.data, x.stride, w, r)))
  }

  lemma {:induction false} UnpackBlockRow(x: Words, w: nat, h: nat, r: nat)
    requires x.Has(w, h) && r < h
    ensures Offset(r, x.stride) + w <= |x.data| && Offset(r + 1, x.stride) == Offset(r, x.stride) + x.stride
    ensures UnpackBlock(x, w, h)[r] == EightRow(Load(x.data, Offset(r, x.stride), w))
  {
    OffsetNext(r, x.stride);
    hide Offset, EightRow;
  }

  lemma {:induction false} EightPiece(x: seq<u16>, at: nat, w: nat, j: nat, k: nat)
    requires at + w <= |x| && j + k <= w
    ensures EightRow(Load(x, at, w))[j..j + k] == EightRow(Load(x, at + j, k))
  {
    LoadPart(x, at, w, j, k);
    hide Eight, Load;
  }

  // The pixels of both rows at a column.
  method UnpackPieces(x: Words, at: nat, w: nat, j: nat, piece: nat) returns (a: seq<u8>, b: seq<u8>)
    requires (piece == 4 || piece == 8 || piece == 16 || piece == 32) && j + piece <= w
    requires at + w <= |x.data| && at + x.stride + w <= |x.data|
    ensures a == EightRow(Load(x.data, at, w))[j..j + piece]
        && b == EightRow(Load(x.data, at + x.stride, w))[j..j + piece]
  {
    hide EightRow, UnpackPiece, Unpack32;
    EightPiece(x.data, at, w, j, piece);
    EightPiece(x.data, at + x.stride, w, j, piece);
    var p, q := Load(x.data, at + j, piece), Load(x.data, at + x.stride + j, piece);
    if piece == 16 {
      UnpackPair(p, q);
      var r := Unpack32(p + q);
      a, b := r[..16], r[16..];
    } else {
      UnpackPieceIsRow(p);
      UnpackPieceIsRow(q);
      a, b := UnpackPiece(p), UnpackPiece(q);
    }
  }

  // Two rows, piece by piece in turn; what is left of a width that is no multiple of the piece, pixel by pixel.
  method UnpackTwoRows(out: array<u8>, at: nat, further: nat, x: Words, atX: nat, w: nat, piece: nat)
    requires (piece == 4 || piece == 8 || piece == 16 || piece == 32) && at + w <= further && further + w <= out.Length
    requires atX + w <= |x.data| && atX + x.stride + w <= |x.data|
    modifies out
    ensures out[..] == Put(Put(old(out[..]), at, EightRow(Load(x.data, atX, w))), further,
                           EightRow(Load(x.data, atX + x.stride, w)))
  {
    hide Put, EightRow;
    ghost var before := out[..];
    ghost var a, b := EightRow(Load(x.data, atX, w)), EightRow(Load(x.data, atX + x.stride, w));
    PutMore(before, at, a, 0, 0);
    PutMore(before, further, b, 0, 0);
    var y := 0;
    while y + piece <= w
      invariant 0 <= y <= w && out[..] == Put(Put(before, at, a[..y]), further, b[..y])
    {
      TwoMore(before, at, a, further, b, y, piece);
      var p, q := UnpackPieces(x, atX, w, y, piece);
      Store(out, at + y, p);
      Store(out, further + y, q);
      y := y + piece;
    }
    while y < w
      invariant 0 <= y <= w && out[..] == Put(Put(before, at, a[..y]), further, b[..y])
    {
      TwoMore(before, at, a, further, b, y, 1);
      SinglePixel(x.data, atX, w, y);
      SinglePixel(x.data, atX + x.stride, w, y);
      Store(out, at + y, [Eight(x.data[atX + y])]);
      Store(out, further + y, [Eight(x.data[atX + x.stride + y])]);
      y := y + 1;
    }
    PutMore(before, at, a, 0, 0);
    PutMore(before, further, b, 0, 0);
  }

  lemma {:induction false} SinglePixel(x: seq<u16>, at: nat, w: nat, y: nat)
    requires at + w <= |x| && y < w
    ensures EightRow(Load(x, at, w))[y..y + 1] == [Eight(x[at + y])]
  {
    hide Eight;
    var row := EightRow(Load(x, at, w));
    assert Load(x, at, w)[y] == x[at + y];
    assert row[y] == Eight(x[at + y]) && row[y..y + 1] == [row[y]];
  }

  // A row of a multiple of 64 pixels.
  method UnpackOneRow(out: array<u8>, at: nat, x: Words, atX: nat, w: nat)
    requires w % 64 == 0 && at + w <= out.Length && atX + w <= |x.data|
    modifies out
    ensures out[..] == Put(old(out[..]), at, EightRow(Load(x.data, atX, w)))
  {
    hide Put, EightRow, UnpackPiece;
    ghost var before, row := out[..], EightRow(Load(x.data, atX, w));
    PutMore(before, at, row, 0, 0);
    var y := 0;
    while y < w
      invariant 0 <= y <= w && y % 64 == 0 && out[..] == Put(before, at, row[..y])
    {
      EightPiece(x.data, atX, w, y, 64);
      PutMore(before, at, row, y, 64);
      UnpackPieceIsRow(Load(x.data, atX + y, 64));
      Store(out, at + y, UnpackPiece(Load(x.data, atX + y, 64)));
      y := y + 64;
    }
  }

  // svt_enc_un_pack8_bit_data_avx2_intrin
  method UnPack8(out: array<u8>, outStride: nat, x: Words, w: nat, h: nat)
    requires w > 0 && (w % 64 == 0 || h % 2 == 0) && x.Has(w, h) && Fits(out.Length, 0, outStride, w, h)
    modifies out
    ensures out[..] == PutRows(old(out[..]), 0, outStride, w, UnpackBlock(x, w, h))
  {
    hide PutRows, UnpackBlock, Words.Has, Fits;
    if w % 64 == 0 {
      UnPackByRow(out, outStride, x, w, h);
    } else {
      UnPackByPair(out, outStride, x, w, h, if w % 32 == 0 then 32 else if w % 16 == 0 then 16 else if w % 8 == 0 then
          8 else 4);
    }
  }

  method UnPackByRow(out: array<u8>, outStride: nat, x: Words, w: nat, h: nat)
    requires w % 64 == 0 && x.Has(w, h) && Fits(out.Length, 0, outStride, w, h)
    modifies out
    ensures out[..] == PutRows(old(out[..]), 0, outStride, w, UnpackBlock(x, w, h))
  {
    hide Offset, Put, PutRows, Written, UnpackBlock, EightRow, Words.Has;
    ghost var before, rows := out[..], UnpackBlock(x, w, h);
    WrittenNone(before, 0, outStride, w, rows);
    var at, atX := 0, 0;
    assert Offset(0, x.stride) == 0 by { OffsetNext(0, x.stride); }
    for i := 0 to h
      invariant at == Offset(i, outStride) && atX == Offset(i, x.stride)
          && Written(out[..], before, 0, outStride, w, rows, i)
    {
      UnpackBlockRow(x, w, h, i);
      WrittenNext(out[..], before, 0, outStride, w, rows, i);
      UnpackOneRow(out, at, x, atX, w);
      at, atX := at + outStride, atX + x.stride;
    }
    WrittenAll(out[..], before, 0, outStride, w, rows);
  }

  method UnPackByPair(out: array<u8>, outStride: nat, x: Words, w: nat, h: nat, piece: nat)
    requires (piece == 4 || piece == 8 || piece == 16 || piece == 32) && h % 2 == 0 && x.Has(w, h)
        && Fits(out.Length, 0, outStride, w, h)
    modifies out
    ensures out[..] == PutRows(old(out[..]), 0, outStride, w, UnpackBlock(x, w, h))
  {
    hide Offset, Put, PutRows, Written, UnpackBlock, EightRow, Words.Has;
    ghost var before, rows := out[..], UnpackBlock(x, w, h);
    WrittenNone(before, 0, outStride, w, rows);
    var at, atX, i := 0, 0, 0;
    assert Offset(0, x.stride) == 0 by { OffsetNext(0, x.stride); }
    while i < h
      invariant 0 <= i <= h && i % 2 == 0 && at == Offset(i, outStride) && atX == Offset(i, x.stride)
      invariant Written(out[..], before, 0, outStride, w, rows, i)
    {
      UnpackBlockRow(x, w, h, i);
      UnpackBlockRow(x, w, h, i + 1);
      WrittenWidth(out[..], before, 0, outStride, w, rows, i);
      WrittenNext(out[..], before, 0, outStride, w, rows, i);
      WrittenNext(Put(out[..], at, rows[i]), before, 0, outStride, w, rows, i + 1);
      UnpackTwoRows(out, at, at + outStride, x, atX, w, piece);
      at, atX, i := at + 2 * outStride, atX + 2 * x.stride, i + 2;
    }
    WrittenAll(out[..], before, 0, outStride, w, rows);
  }

  // The four transformations in numbers, place by place: eight bits and the two high bits of a byte make ten; four
  // pairs of high bits make a byte, the first pair on top, and come out in that order; eight of ten bits remain.
  lemma {:induction false} PackedPixelAt(before: seq<u16>, stride: nat, b: Bytes, n: Bytes, w: nat, h: nat, r: nat,
                                         c: nat)
    requires b.Has(w, h) && n.Has(w, h) && Fits(|before|, 0, stride, w, h) && r < h && c < w
    ensures Offset(r, stride) + c < |before| && Offset(r, b.stride) + c < |b.data|
        && Offset(r, n.stride) + c < |n.data|
    ensures
      var x: nat, y: nat := b.data[Offset(r, b.stride) + c], n.data[Offset(r, n.stride) + c];
      PutRows(before, 0, stride, w, PackBlock(b, n, w, h))[Offset(r, stride) + c] == 4 * x + y / 64
  {
    hide Offset, PutRows;
    PutRowsAt(before, 0, stride, w, PackBlock(b, n, w, h), r, c);
  }

  lemma {:induction false} SqueezedByteAt(before: seq<u8>, stride: nat, n: Bytes, w: nat, h: nat, r: nat, c: nat)
    requires n.Has(w, h) && w % 4 == 0 && Fits(|before|, 0, stride, w / 4, h) && r < h && c < w / 4
    ensures Offset(r, stride) + c < |before| && Offset(r, n.stride) + 4 * c + 3 < |n.data|
    ensures
      var d: seq<nat>, q := n.data, Offset(r, n.stride) + 4 * c;
      PutRows(before, 0, stride, w / 4, SqueezeBlock(n, w, h))[Offset(r, stride) + c]
      == d[q] / 64 * 64 + d[q + 1] / 64 * 16 + d[q + 2] / 64 * 4 + d[q + 3] / 64
  {
    hide Offset, PutRows;
    PutRowsAt(before, 0, stride, w / 4, SqueezeBlock(n, w, h), r, c);
  }

  lemma {:induction false} ExpandedPixelAt(before: seq<u16>, stride: nat, b: Bytes, c: Bytes, w: nat, h: nat, r: nat,
                                           i: nat, j: nat)
    requires b.Has(w, h) && c.Has(w / 4, h) && w % 4 == 0 && Fits(|before|, 0, stride, w, h)
    requires r < h && i < w / 4 && j < 4
    ensures Offset(r, stride) + 4 * i + j < |before| && Offset(r, b.stride) + 4 * i + j < |b.data|
        && Offset(r, c.stride) + i < |c.data|
    ensures
      var x: nat, y: nat := b.data[Offset(r, b.stride) + 4 * i + j], c.data[Offset(r, c.stride) + i];
      PutRows(before, 0, stride, w, ExpandPackBlock(b, c, w, h))[Offset(r, stride) + 4 * i + j]
      == 4 * x + y / [64, 16, 4, 1][j] % 4
  {
    hide Offset, PutRows, ExpandedRow, Pixel10, Extra;
    PutRowsAt(before, 0, stride, w, ExpandPackBlock(b, c, w, h), r, 4 * i + j);
    ExpandedAt(c.RowAt(w / 4, r), i, j);
    PixelOfPair(b.data[Offset(r, b.stride) + 4 * i + j], c.data[Offset(r, c.stride) + i], j);
  }

  lemma {:induction false} PixelOfPair(b: u8, c: u8, j: nat)
    requires j < 4
    ensures Pixel10(b, Extra(c, j)) == 4 * b + c / [64, 16, 4, 1][j] % 4
  {
  }

  lemma {:induction false} UnpackedByteAt(before: seq<u8>, stride: nat, x: Words, w: nat, h: nat, r: nat, c: nat)
    requires x.Has(w, h) && Fits(|before|, 0, stride, w, h) && r < h && c < w
    ensures Offset(r, stride) + c < |before| && Offset(r, x.stride) + c < |x.data|
    ensures PutRows(before, 0, stride, w, UnpackBlock(x, w, h))[Offset(r, stride) + c]
         == x.data[Offset(r, x.stride) + c] / 4 % 256
  {
    hide Offset, PutRows;
    PutRowsAt(before, 0, stride, w, UnpackBlock(x, w, h), r, c);
  }

  // Unpacking a packed plane returns the eight-bit plane, whatever the extra bits were.
  lemma {:induction false} UnpackOfPack(before: seq<u16>, stride: nat, b: Bytes, n: Bytes, w: nat, h: nat, r: nat)
    requires b.Has(w, h) && n.Has(w, h) && Fits(|before|, 0, stride, w, h) && r < h
    ensures
      var x := Words(PutRows(before, 0, stride, w, PackBlock(b, n, w, h)), stride);
      x.Has(w, h) && UnpackBlock(x, w, h)[r] == b.RowAt(w, r)
  {
    hide Offset, PutRows, PackedRow, EightRow, Row;
    var rows := PackBlock(b, n, w, h);
    var x := Words(PutRows(before, 0, stride, w, rows), stride);
    forall q | 0 <= q < h
      ensures Offset(q, stride) + w <= |x.data|
    {
      RowOfBlock(before, stride, w, rows, q);
    }
    RowOfBlock(before, stride, w, rows, r);
    PackedUnpacks(b.RowAt(w, r), n.RowAt(w, r));
  }
}
