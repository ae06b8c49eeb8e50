/** Fixed-width unsigned integers, as subsets of int, and their bits. */
module MachineInts {
  type u8 = x: int | 0 <= x < 0x100
  type u16 = x: int | 0 <= x < 0x1_0000
  type u32 = x: int | 0 <= x < 0x1_0000_0000
  type u64 = x: int | 0 <= x < 0x1_0000_0000_0000_0000

  function Bits(x: u32): bv32 { x as bv32 }

  function FromBits(v: bv32): u32 { v as int }

  // Four bytes, low-order byte first.
  function LittleEndian(b0: u8, b1: u8, b2: u8, b3: u8): u32 {
    b0 + 0x100 * (b1 + 0x100 * (b2 + 0x100 * b3))
  }

  function WordBytes(w: u32): (s: seq<u8>)
    ensures |s| == 4
  {
    var w1 := w / 0x100;
    var w2 := w1 / 0x100;
    [w % 0x100, w1 % 0x100, w2 % 0x100, w2 / 0x100]
  }

  // Reading back a word stored low-order byte first.
  lemma {:induction false} WordRoundTrip(w: u32)
    ensures var s := WordBytes(w); LittleEndian(s[0], s[1], s[2], s[3]) == w
  {
  }

  lemma {:induction false} BytesRoundTrip(b0: u8, b1: u8, b2: u8, b3: u8)
    ensures WordBytes(LittleEndian(b0, b1, b2, b3)) == [b0, b1, b2, b3]
  {
    LowByte(b0, b1 + 0x100 * (b2 + 0x100 * b3));
    LowByte(b1, b2 + 0x100 * b3);
    LowByte(b2, b3);
  }

  lemma {:induction false} LowByte(b: u8, rest: nat)
    ensures (b + 0x100 * rest) / 0x100 == rest && (b + 0x100 * rest) % 0x100 == b
  {
  }
}
