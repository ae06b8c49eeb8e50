/** The bit reader and the OBU header (sections 5.3.2 and 5.3.3 of the AV1 bitstream specification). */
module ObuHeaders {
  import opened Arithmetic
  import opened MachineInts

  const TEMPORAL_DELIMITER := 2
  const SEQUENCE_HEADER := 1

  // ReadBitBuffer, at most four thousand million bits long.
  class BitReader {
    const data: seq<u8>
    var offset: nat

    constructor (data: seq<u8>)
      ensures this.data == data && offset == 0
    {
      this.data := data;
      offset := 0;
    }

    // rb_read_bit: past the end it returns 0 and stays.
    method ReadBit() returns (bit: nat)
      modifies this
      ensures bit == BitAt(data, old(offset))
      ensures offset == if old(offset) < 8 * |data| then old(offset) + 1 else old(offset)
    {
      var p, q := offset / 8, 7 - offset % 8;
      if p < |data| {
        bit := data[p] / Pow2(q) % 2;
        offset := offset + 1;
      } else {
        bit := 0;
      }
    }

    // rb_read_literal
    method ReadLiteral(bits: nat) returns (value: nat)
      requires offset + bits <= 8 * |data|
      modifies this
      ensures offset == old(offset) + bits && value == LiteralAt(data, old(offset), bits)
    {
      hide BitAt;
      value := 0;
      var bit: int := bits - 1;
      while bit >= 0
        invariant -1 <= bit < bits && offset == old(offset) + (bits - 1 - bit)
        invariant value + LiteralAt(data, offset, bit + 1) == LiteralAt(data, old(offset), bits)
      {
        var b := ReadBit();
        value := value + b * Pow2(bit);  // the bits of |= do not overlap
        bit := bit - 1;
      }
    }
  }

  function BitAt(data: seq<u8>, offset: nat): nat {
    if offset < 8 * |data| then data[offset / 8] / Pow2(7 - offset % 8) % 2 else 0
  }

  // The number whose bits start at an offset, high-order bit first.
  ghost function LiteralAt(data: seq<u8>, offset: nat, bits: nat): nat
    decreases bits
  {
    if bits == 0 then 0 else BitAt(data, offset) * Pow2(bits - 1) + LiteralAt(data, offset + 1, bits - 1)
  }

  datatype ObuHeader = ObuHeader(
    size: nat, obuType: nat, hasExtension: bool, hasSizeField: bool, temporalLayer: nat, spatialLayer: nat)

  const NO_HEADER := ObuHeader(0, 0, false, false, 0, 0)

  predicate ValidType(obuType: nat) { obuType in {1, 2, 3, 4, 5, 6, 7, 8, 15} }

  // The fields of the header bytes.
  function TypeOf(b: u8): nat { b / 8 % 16 }

  function ExtensionOf(b: u8): bool { b / 4 % 2 == 1 }

  function SizeFieldOf(b: u8): bool { b / 2 % 2 == 1 }

  // Whether read_obu_header succeeds on the one or two bytes of a header, and the fields
  // it has stored when it stops.
  function Parse(data: seq<u8>, annexB: bool): (bool, ObuHeader)
    requires 1 <= |data| <= 2 && (ExtensionOf(data[0]) ==> |data| == 2)
  {
    var b := data[0];
    var h0 := NO_HEADER.(size := 1);
    var h1 := h0.(obuType := TypeOf(b));
    var h2 := h1.(hasExtension := ExtensionOf(b), hasSizeField := SizeFieldOf(b));
    if b >= 0x80 then (false, h0)
    else if !ValidType(TypeOf(b)) then (false, h1)
    else if (!SizeFieldOf(b) && !annexB) || b % 2 != 0 then (false, h2)
    else if !ExtensionOf(b) then (true, h2)
    else (data[1] % 8 == 0, h2.(size := 2, temporalLayer := data[1] / 32, spatialLayer := data[1] / 8 % 4))
  }

  // The bits of one byte.
  lemma {:induction false} ByteLiterals(data: seq<u8>, i: nat)
    requires i < |data|
    ensures
      var b, at := data[i], 8 * i;
      && BitAt(data, at) == b / 128 && LiteralAt(data, at + 1, 4) == TypeOf(b)
      && (BitAt(data, at + 5) == 1 <==> ExtensionOf(b)) && (BitAt(data, at + 6) == 1 <==> SizeFieldOf(b))
      && BitAt(data, at + 7) == b % 2 && BitAt(data, at + 5) < 2 && BitAt(data, at + 6) < 2
      && LiteralAt(data, at, 3) == b / 32 && LiteralAt(data, at + 3, 2) == b / 8 % 4
           && LiteralAt(data, at + 5, 3) == b % 8
  {
    var b, at := data[i], 8 * i;
    BitsOfByte(data, i);
    LiteralOfThree(data, at);
    LiteralOfTwo(data, at + 3);
    LiteralOfThree(data, at + 5);
    LiteralOfFour(data, at + 1);
    ByteSums(b);
    hide BitAt, LiteralAt;
  }

  lemma {:induction false} BitIn(data: seq<u8>, i: nat, k: nat, p: nat)
    requires i < |data| && k < 8 && p == Pow2(7 - k)
    ensures BitAt(data, 8 * i + k) == data[i] / p % 2
  {
  }

  lemma {:induction false} BitsOfByte(data: seq<u8>, i: nat)
    requires i < |data|
    ensures
      var b, at := data[i], 8 * i;
      && BitAt(data, at) == b / 128 % 2 && BitAt(data, at + 1) == b / 64 % 2 && BitAt(data, at + 2) == b / 32 % 2
      && BitAt(data, at + 3) == b / 16 % 2 && BitAt(data, at + 4) == b / 8 % 2 && BitAt(data, at + 5) == b / 4 % 2
      && BitAt(data, at + 6) == b / 2 % 2 && BitAt(data, at + 7) == b % 2
  {
    assert Pow2(0) == 1 && Pow2(1) == 2 && Pow2(2) == 4 && Pow2(3) == 8;
    assert Pow2(4) == 16 && Pow2(5) == 32 && Pow2(6) == 64 && Pow2(7) == 128;
    hide BitAt, Pow2;
    BitIn(data, i, 0, 128);
    BitIn(data, i, 1, 64);
    BitIn(data, i, 2, 32);
    BitIn(data, i, 3, 16);
    BitIn(data, i, 4, 8);
    BitIn(data, i, 5, 4);
    BitIn(data, i, 6, 2);
    BitIn(data, i, 7, 1);
  }

  lemma {:induction false} ByteSums(b: u8)
    ensures b / 128 % 2 == b / 128 && b / 64 % 2 * 8 + b / 32 % 2 * 4 + b / 16 % 2 * 2 + b / 8 % 2 == b / 8 % 16
    ensures b / 128 % 2 * 4 + b / 64 % 2 * 2 + b / 32 % 2 == b / 32 && b / 16 % 2 * 2 + b / 8 % 2 == b / 8 % 4
    ensures b / 4 % 2 * 4 + b / 2 % 2 * 2 + b % 2 == b % 8
  {
    var (x1, r0) := (b / 2, b % 2);
    var (x2, r1) := (x1 / 2, x1 % 2);
    var (x3, r2) := (x2 / 2, x2 % 2);
    var (x4, r3) := (x3 / 2, x3 % 2);
    var (x5, r4) := (x4 / 2, x4 % 2);
    var (x6, r5) := (x5 / 2, x5 % 2);
    var (r7, r6) := (x6 / 2, x6 % 2);
    Quotient(b, 4, x2, 2 * r1 + r0);
    Quotient(b, 8, x3, 4 * r2 + 2 * r1 + r0);
    Quotient(b, 16, x4, 8 * r3 + 4 * r2 + 2 * r1 + r0);
    Quotient(b, 32, x5, 16 * r4 + 8 * r3 + 4 * r2 + 2 * r1 + r0);
    Quotient(b, 64, x6, 32 * r5 + 16 * r4 + 8 * r3 + 4 * r2 + 2 * r1 + r0);
    Quotient(b, 128, r7, 64 * r6 + 32 * r5 + 16 * r4 + 8 * r3 + 4 * r2 + 2 * r1 + r0);
    Quotient(x3, 16, r7, 8 * r6 + 4 * r5 + 2 * r4 + r3);
    Quotient(x3, 4, x5, 2 * r4 + r3);
  }

  lemma {:induction false} LiteralOfTwo(data: seq<u8>, at: nat)
    ensures LiteralAt(data, at, 2) == BitAt(data, at) * 2 + BitAt(data, at + 1)
  {
    assert LiteralAt(data, at, 2) == BitAt(data, at) * Pow2(1) + LiteralAt(data, at + 1, 1);
    assert LiteralAt(data, at + 1, 1) == BitAt(data, at + 1) * Pow2(0) + LiteralAt(data, at + 2, 0);
  }

  lemma {:induction false} LiteralOfThree(data: seq<u8>, at: nat)
    ensures LiteralAt(data, at, 3) == BitAt(data, at) * 4 + BitAt(data, at + 1) * 2 + BitAt(data, at + 2)
  {
    LiteralOfTwo(data, at + 1);
    assert LiteralAt(data, at, 3) == BitAt(data, at) * Pow2(2) + LiteralAt(data, at + 1, 2);
  }

  lemma {:induction false} LiteralOfFour(data: seq<u8>, at: nat)
    ensures LiteralAt(data, at, 4) == BitAt(data, at) * 8 + BitAt(data, at + 1) * 4 + BitAt(data, at + 2) * 2
        + BitAt(data, at + 3)
  {
    LiteralOfThree(data, at + 1);
    assert LiteralAt(data, at, 4) == BitAt(data, at) * Pow2(3) + LiteralAt(data, at + 1, 3);
  }

  // read_obu_header
  method ReadObuHeader(data: seq<u8>, annexB: bool) returns (ok: bool, header: ObuHeader)
    requires 1 <= |data| <= 2 && (ExtensionOf(data[0]) ==> |data| == 2)
    ensures (ok, header) == Parse(data, annexB)
  {
    ByteLiterals(data, 0);
    hide BitAt, LiteralAt, TypeOf, ExtensionOf, SizeFieldOf, ValidType;
    var rb := new BitReader(data);
    header := NO_HEADER.(size := 1);
    var bit := rb.ReadBit();
    if bit != 0 { return false, header; }
    var t := rb.ReadLiteral(4);
    header := header.(obuType := t);
    if !ValidType(t) { return false, header; }
    bit := rb.ReadBit();
    header := header.(hasExtension := bit == 1);
    bit := rb.ReadBit();
    header := header.(hasSizeField := bit == 1);
    if !header.hasSizeField && !annexB { return false, header; }
    bit := rb.ReadBit();
    if bit != 0 { return false, header; }
    ok := true;
    if header.hasExtension {
      ok, header := ReadExtension(rb, header);
    }
  }

  // The second byte of read_obu_header.
  method ReadExtension(rb: BitReader, h: ObuHeader) returns (ok: bool, header: ObuHeader)
    requires |rb.data| == 2 && rb.offset == 8
    modifies rb
    ensures
      var e := rb.data[1];
      ok == (e % 8 == 0) && header == h.(size := h.size + 1, temporalLayer := e / 32, spatialLayer := e / 8 % 4)
  {
    ByteLiterals(rb.data, 1);
    hide BitAt, LiteralAt;
    header := h.(size := h.size + 1);
    var t := rb.ReadLiteral(3);
    header := header.(temporalLayer := t);
    t := rb.ReadLiteral(2);
    header := header.(spatialLayer := t);
    t := rb.ReadLiteral(3);
    ok := t == 0;
  }

  // The headers accepted, bit by bit: a clear first bit, a known type, a length field unless the format has lengths
  // of its own, and clear reserved bits; the fields stored are those bits.
  lemma {:induction false} AcceptedHeaders(data: seq<u8>, annexB: bool)
    requires 1 <= |data| <= 2 && (data[0] / 4 % 2 == 1 <==> |data| == 2)
    ensures
      var (ok, h) := Parse(data, annexB);
      var b := data[0];
      && (ok <==>
          && b < 128 && b / 8 % 16 in {1, 2, 3, 4, 5, 6, 7, 8, 15} && (annexB || b / 2 % 2 == 1) && b % 2 == 0
          && (|data| == 2 ==> data[1] % 8 == 0))
      && (ok ==>
          && h.size == |data| && h.obuType == b / 8 % 16 && (h.hasSizeField <==> b / 2 % 2 == 1)
          && (h.hasExtension <==> |data| == 2)
          && h.temporalLayer == (if |data| == 2 then data[1] / 32 else 0)
          && h.spatialLayer == (if |data| == 2 then data[1] / 8 % 4 else 0))
      && (b >= 128 ==> h == ObuHeader(1, 0, false, false, 0, 0))
  {
  }

  // ----- printing -----

  // The headers sections 5.3.2 and 5.3.3 allow and the code models.
  predicate ValidHeader(h: ObuHeader) {
    && ValidType(h.obuType) && h.size == (if h.hasExtension then 2 else 1)
    && h.temporalLayer < 8 && h.spatialLayer < 4
    && (!h.hasExtension ==> h.temporalLayer == 0 && h.spatialLayer == 0)
  }

  function Print(h: ObuHeader): (s: seq<u8>)
    requires ValidHeader(h)
    ensures |s| == h.size
  {
    [h.obuType * 8 + (if h.hasExtension then 4 else 0) + if h.hasSizeField then 2 else 0] +
    if h.hasExtension then [h.temporalLayer * 32 + h.spatialLayer * 8] else []
  }

  // The parser inverts the printer ...
  lemma {:induction false} PrintThenParse(h: ObuHeader, annexB: bool)
    requires ValidHeader(h)
    ensures
      var s := Print(h);
      && TypeOf(s[0]) == h.obuType && ExtensionOf(s[0]) == h.hasExtension && SizeFieldOf(s[0]) == h.hasSizeField
      && Parse(s, annexB) == (h.hasSizeField || annexB, if h.hasSizeField || annexB then h else Parse(s, annexB).1)
  {
  }

  // ... and every header it accepts is a printed one.
  lemma {:induction false} ParseThenPrint(data: seq<u8>, annexB: bool)
    requires 1 <= |data| <= 2 && (ExtensionOf(data[0]) <==> |data| == 2) && Parse(data, annexB).0
    ensures ValidHeader(Parse(data, annexB).1) && Print(Parse(data, annexB).1) == data
  {
  }

  // The file reader ignores the result of the parse and only looks at the size flag it
  // left behind. It goes on with a header the parser rejects exactly when the forbidden
  // bit is clear, the type is known, the size flag is set and a reserved bit is set.
  lemma {:induction false} IgnoredParseFailure(data: seq<u8>)
    requires 1 <= |data| <= 2 && (ExtensionOf(data[0]) <==> |data| == 2)
    ensures
      var (ok, h) := Parse(data, false);
      !ok && h.hasSizeField <==>
        && data[0] < 0x80 && ValidType(TypeOf(data[0])) && SizeFieldOf(data[0])
        && (data[0] % 2 != 0 || (ExtensionOf(data[0]) && data[1] % 8 != 0))
  {
  }
}
