/** The MD5 message digest as RFC 1321 defines it (sections 3.1 to 3.5). */
module Md5Rfc {
  import opened Arithmetic
  import opened MachineInts

  type Word = u32

  /** The four-word buffer of section 3.3. */
  datatype State = State(a: Word, b: Word, c: Word, d: Word)

  const INITIAL: State := State(0x67452301, 0xefcdab89, 0x98badcfe, 0x10325476)

  // The auxiliary functions of section 3.4, bit by bit.
  function F(x: Word, y: Word, z: Word): Word { FromBits(BitsOfF(Bits(x), Bits(y), Bits(z))) }

  function BitsOfF(x: bv32, y: bv32, z: bv32): bv32 { (x & y) | (!x & z) }

  function G(x: Word, y: Word, z: Word): Word { FromBits(BitsOfG(Bits(x), Bits(y), Bits(z))) }

  function BitsOfG(x: bv32, y: bv32, z: bv32): bv32 { (x & z) | (y & !z) }

  function H(x: Word, y: Word, z: Word): Word { FromBits(Bits(x) ^ Bits(y) ^ Bits(z)) }

  function I(x: Word, y: Word, z: Word): Word { FromBits(Bits(y) ^ (Bits(x) | !Bits(z))) }

  function Auxiliary(round: nat, x: Word, y: Word, z: Word): Word {
    match round
    case 0 => F(x, y, z)
    case 1 => G(x, y, z)
    case 2 => H(x, y, z)
    case _ => I(x, y, z)
  }

  // The sine table of section 3.4: entry i is the integer part of 2^32 * |sin(i + 1)|.
  function Sine(i: nat): Word
    requires i < 64
  {
    match i
    case 0 => 0xd76aa478 case 1 => 0xe8c7b756 case 2 => 0x242070db case 3 => 0xc1bdceee
    case 4 => 0xf57c0faf case 5 => 0x4787c62a case 6 => 0xa8304613 case 7 => 0xfd469501
    case 8 => 0x698098d8 case 9 => 0x8b44f7af case 10 => 0xffff5bb1 case 11 => 0x895cd7be
    case 12 => 0x6b901122 case 13 => 0xfd987193 case 14 => 0xa679438e case 15 => 0x49b40821
    case 16 => 0xf61e2562 case 17 => 0xc040b340 case 18 => 0x265e5a51 case 19 => 0xe9b6c7aa
    case 20 => 0xd62f105d case 21 => 0x02441453 case 22 => 0xd8a1e681 case 23 => 0xe7d3fbc8
    case 24 => 0x21e1cde6 case 25 => 0xc33707d6 case 26 => 0xf4d50d87 case 27 => 0x455a14ed
    case 28 => 0xa9e3e905 case 29 => 0xfcefa3f8 case 30 => 0x676f02d9 case 31 => 0x8d2a4c8a
    case 32 => 0xfffa3942 case 33 => 0x8771f681 case 34 => 0x6d9d6122 case 35 => 0xfde5380c
    case 36 => 0xa4beea44 case 37 => 0x4bdecfa9 case 38 => 0xf6bb4b60 case 39 => 0xbebfbc70
    case 40 => 0x289b7ec6 case 41 => 0xeaa127fa case 42 => 0xd4ef3085 case 43 => 0x04881d05
    case 44 => 0xd9d4d039 case 45 => 0xe6db99e5 case 46 => 0x1fa27cf8 case 47 => 0xc4ac5665
    case 48 => 0xf4292244 case 49 => 0x432aff97 case 50 => 0xab9423a7 case 51 => 0xfc93a039
    case 52 => 0x655b59c3 case 53 => 0x8f0ccc92 case 54 => 0xffeff47d case 55 => 0x85845dd1
    case 56 => 0x6fa87e4f case 57 => 0xfe2ce6e0 case 58 => 0xa3014314 case 59 => 0x4e0811a1
    case 60 => 0xf7537e82 case 61 => 0xbd3af235 case 62 => 0x2ad7d2bb case _ => 0xeb86d391
  }

  // Which of the sixteen words operation i of a block uses.
  function WordIndex(i: nat): (k: nat)
    requires i < 64
    ensures k < 16
  {
    match i / 16
    case 0 => i
    case 1 => (1 + 5 * i) % 16
    case 2 => (5 + 3 * i) % 16
    case _ => (7 * i) % 16
  }

  // How far operation i rotates.
  function Rotation(i: nat): (s: nat)
    requires i < 64
    ensures 0 < s < 32
  {
    match (i / 16, i % 4)
    case (0, 0) => 7  case (0, 1) => 12 case (0, 2) => 17 case (0, _) => 22
    case (1, 0) => 5  case (1, 1) => 9  case (1, 2) => 14 case (1, _) => 20
    case (2, 0) => 4  case (2, 1) => 11 case (2, 2) => 16 case (2, _) => 23
    case (_, 0) => 6  case (_, 1) => 10 case (_, 2) => 15 case (_, _) => 21
  }

  // Section 2: the word moved up by s bits, and what leaves it at the top moved to the bottom.
  function RotateLeft(x: Word, s: nat): Word
    requires 0 < s < 32
  {
    RotationFits(x, s);
    x * Pow2(s) % 0x1_0000_0000 + x / Pow2(32 - s)
  }

  lemma {:induction false} PowersMultiply(s: nat, t: nat)
    ensures Pow2(s) * Pow2(t) == Pow2(s + t)
    decreases s
  {
    if s > 0 {
      PowersMultiply(s - 1, t);
      assert Pow2(s) * Pow2(t) == 2 * (Pow2(s - 1) * Pow2(t));
    }
  }

  lemma {:induction false} WordPower()
    ensures Pow2(32) == 0x1_0000_0000
  {
    assert Pow2(8) == 256;
    PowersMultiply(8, 8);
    PowersMultiply(16, 16);
  }

  // The bits that leave the word, and those that stay.
  lemma {:induction false} RotationParts(x: Word, s: nat, high: nat, low: nat)
    requires 0 < s < 32 && x == high * Pow2(32 - s) + low && low < Pow2(32 - s)
    ensures x * Pow2(s) % 0x1_0000_0000 == low * Pow2(s) && x / Pow2(32 - s) == high < Pow2(s)
    ensures low * Pow2(s) + high < 0x1_0000_0000
  {
    hide Pow2;
    var p, q := Pow2(s), Pow2(32 - s);
    PowersMultiply(s, 32 - s);
    WordPower();
    assert high < p by {
      if high >= p { MulMonotone(p, high, q); }
    }
    assert x * p == high * (p * q) + low * p;
    MulMonotone(low + 1, q, p);
    assert (low + 1) * p == low * p + p && q * p == p * q;
    Quotient(x * p, 0x1_0000_0000, high, low * p);
    Quotient(x, q, high, low);
  }

  lemma {:induction false} RotationFits(x: Word, s: nat)
    requires 0 < s < 32
    ensures 0 <= x * Pow2(s) % 0x1_0000_0000 + x / Pow2(32 - s) < 0x1_0000_0000
  {
    hide Pow2;
    var q := Pow2(32 - s);
    var high, low := x / q, x % q;
    assert x == high * q + low;
    if high < 0 { MulMonotone(high, -1, q); }
    RotationParts(x, s, high, low);
  }

  // Addition of words, modulo 2^32.
  function Plus(x: Word, y: Word): Word { (x + y) % 0x1_0000_0000 }

  // "w = x + ((w + f(x,y,z) + X[k] + T[i]) <<< s)"
  function Mix(i: nat, w: Word, x: Word, y: Word, z: Word, words: seq<Word>): Word
    requires i < 64 && |words| == 16
  {
    var sum := Plus(w, Plus(Auxiliary(i / 16, x, y, z), Plus(words[WordIndex(i)], Sine(i))));
    Plus(x, RotateLeft(sum, Rotation(i)))
  }

  // Operation i updates one register; the roles rotate ABCD, DABC, CDAB, BCDA.
  function Operation(st: State, words: seq<Word>, i: nat): State
    requires i < 64 && |words| == 16
  {
    match i % 4
    case 0 => st.(a := Mix(i, st.a, st.b, st.c, st.d, words))
    case 1 => st.(d := Mix(i, st.d, st.a, st.b, st.c, words))
    case 2 => st.(c := Mix(i, st.c, st.d, st.a, st.b, words))
    case _ => st.(b := Mix(i, st.b, st.c, st.d, st.a, words))
  }

  // The first n of the 64 operations.
  function Operations(st: State, words: seq<Word>, n: nat): State
    requires n <= 64 && |words| == 16
    decreases n
  {
    if n == 0 then st else Operation(Operations(st, words, n - 1), words, n - 1)
  }

  // One sixteen-word block: run the operations, then add the saved buffer.
  function Compress(st: State, words: seq<Word>): State
    requires |words| == 16
  {
    var r := Operations(st, words, 64);
    State(Plus(st.a, r.a), Plus(st.b, r.b), Plus(st.c, r.c), Plus(st.d, r.d))
  }

  // Words are stored low-order byte first (section 2).
  function BlockWords(block: seq<u8>): (words: seq<Word>)
    requires |block| == 64
    ensures |words| == 16
  {
    seq(16, i requires 0 <= i < 16 => LittleEndian(block[4 * i], block[4 * i + 1], block[4 * i + 2], block[4 * i + 3]))
  }

  // Sections 3.1 and 3.2: a one bit, zeros up to 56 modulo 64 bytes, then the
  // length in bits modulo 2^64, low-order word first.
  function PadBytes(length: nat): (pad: seq<u8>)
    ensures 1 <= |pad| <= 64 && length + |pad| == 64 * BlocksBeforeLast(length) + 56
  {
    [0x80] + seq((55 - length) % 64, _ => 0)
  }

  // The padded message ends in the block that holds the length.
  function BlocksBeforeLast(length: nat): nat { (length + 8) / 64 }

  function LengthLow(length: nat): Word { length * 8 % 0x1_0000_0000 }

  function LengthHigh(length: nat): Word { length * 8 / 0x1_0000_0000 % 0x1_0000_0000 }

  function Padded(message: seq<u8>): (padded: seq<u8>)
    ensures |padded| == 64 * (BlocksBeforeLast(|message|) + 1)
  {
    message + PadBytes(|message|) + WordBytes(LengthLow(|message|)) + WordBytes(LengthHigh(|message|))
  }

  // Section 3.4 over the first n blocks.
  function Process(data: seq<u8>, n: nat): State
    requires 64 * n <= |data|
    decreases n
  {
    if n == 0 then INITIAL
    else Compress(Process(data, n - 1), BlockWords(data[64 * (n - 1)..64 * n]))
  }

  // Section 3.5: A, B, C, D, each low-order byte first.
  function Digest(message: seq<u8>): (digest: seq<u8>)
    ensures |digest| == 16
  {
    var st := Process(Padded(message), BlocksBeforeLast(|message|) + 1);
    WordBytes(st.a) + WordBytes(st.b) + WordBytes(st.c) + WordBytes(st.d)
  }
}
