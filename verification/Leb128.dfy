/** LEB128 lengths (section 4.10.5 of the AV1 bitstream specification). */
module Leb128 {
  import opened Files
  import opened MachineInts
  import opened Wrappers

  const MAX_SIZE := 8
  const UINT32_MAX := 0xFFFF_FFFF

  // A complete encoding: continuation bits on every byte but the last.
  ghost predicate IsLeb(s: seq<u8>) {
    s != [] && (if |s| == 1 then s[0] < 0x80 else s[0] >= 0x80 && IsLeb(s[1..]))
  }

  // The value of an encoding: seven bits a byte, low-order group first.
  ghost function Value(s: seq<u8>): nat {
    if s == [] then 0 else s[0] % 0x80 + 0x80 * Value(s[1..])
  }

  // The number of bytes of the encoding at the start of s, if it ends within limit bytes.
  ghost function Size(s: seq<u8>, limit: nat): (n: Option<nat>)
    ensures n.Some? ==> 0 < n.value <= |s| && n.value <= limit
    decreases limit
  {
    if s == [] || limit == 0 then None
    else if s[0] < 0x80 then Some(1)
    else
      var rest := Size(s[1..], limit - 1);
      if rest.None? then None else Some(rest.value + 1)
  }

  // What a decoder may accept: an encoding of at most eight bytes of a 32-bit value.
  ghost function Decode(s: seq<u8>): Option<(nat, nat)> {
    var n := Size(s, MAX_SIZE);
    if n.None? || Value(s[..n.value]) > UINT32_MAX then None else Some((Value(s[..n.value]), n.value))
  }

  // Any encoding, minimal or padded, followed by anything, decodes to its value and length
  // exactly when it has at most eight bytes and a 32-bit value.
  lemma {:induction false} DecodeEncoding(s: seq<u8>, rest: seq<u8>)
    requires IsLeb(s)
    ensures Decode(s + rest) == if |s| <= 8 && Value(s) <= 0xFFFF_FFFF then Some((Value(s), |s|)) else None
  {
    SizeOfEncoding(s, rest, MAX_SIZE);
    assert |s| <= MAX_SIZE ==> (s + rest)[..|s|] == s;
  }

  lemma {:induction false} SizeOfEncoding(s: seq<u8>, rest: seq<u8>, limit: nat)
    requires IsLeb(s)
    ensures Size(s + rest, limit) == if |s| <= limit then Some(|s|) else None
    decreases limit
  {
    if limit > 0 && |s| > 1 {
      SizeOfEncoding(s[1..], rest, limit - 1);
      assert (s + rest)[1..] == s[1..] + rest;
    }
  }

  // Conversely, whatever is decoded starts with an encoding of that value.
  lemma {:induction false} SizeIsEncoding(s: seq<u8>, limit: nat)
    requires Size(s, limit).Some?
    ensures IsLeb(s[..Size(s, limit).value])
    decreases limit
  {
    if s[0] >= 0x80 {
      SizeIsEncoding(s[1..], limit - 1);
      var n := Size(s, limit).value;
      assert s[..n][1..] == s[1..][..n - 1];
    }
  }

  ghost function Pow128(n: nat): nat { if n == 0 then 1 else 0x80 * Pow128(n - 1) }

  lemma {:induction false} ValueSnoc(s: seq<u8>, b: u8)
    ensures Value(s + [b]) == Value(s) + b % 0x80 * Pow128(|s|)
  {
    if s == [] {
      assert Value([b]) == b % 0x80 + 0x80 * Value([]);
    } else {
      ValueSnoc(s[1..], b);
      assert (s + [b])[1..] == s[1..] + [b];
      assert 0x80 * (b % 0x80 * Pow128(|s| - 1)) == b % 0x80 * Pow128(|s|);
    }
  }

  lemma {:induction false} SizeAt(s: seq<u8>, i: nat, limit: nat)
    requires i <= |s| && i <= limit && forall j :: 0 <= j < i ==> s[j] >= 0x80
    ensures Size(s, limit) == if i == |s| || i == limit then None else if s[i] < 0x80 then
        Some(i + 1) else Size(s, limit)
    decreases i
  {
    if i > 0 {
      SizeAt(s[1..], i - 1, limit - 1);
    }
  }

  // uleb_decode
  method UlebDecode(buffer: seq<u8>) returns (r: Option<(nat, nat)>)
    ensures r == Decode(buffer)
  {
    var value: nat := 0;
    ghost var power: nat := 1;
    var i := 0;
    while i < MAX_SIZE && i < |buffer|
      invariant 0 <= i <= MAX_SIZE && i <= |buffer|
      invariant forall j :: 0 <= j < i ==> buffer[j] >= 0x80
      invariant value == Value(buffer[..i])
    {
      ValueSnoc(buffer[..i], buffer[i]);
      assert buffer[..i + 1] == buffer[..i] + [buffer[i]];
      var decodedByte := buffer[i] % 0x80;
      value := value + decodedByte * Shift7(i);  // the bits of |= do not overlap
      if buffer[i] / 0x80 == 0 {
        SizeAt(buffer, i, MAX_SIZE);
        if value > UINT32_MAX { return None; }
        return Some((value, i + 1));
      }
      i := i + 1;
    }
    SizeAt(buffer, i, MAX_SIZE);
    return None;
  }

  // A shift left by 7 * i bits.
  function Shift7(i: nat): (p: nat)
    ensures p == Pow128(i)
  {
    if i == 0 then 1 else 0x80 * Shift7(i - 1)
  }

  // The outcomes of obudec_read_leb128: an error, nothing left in the file, or the bytes.
  datatype LebRead = LebError | LebEof | LebOk(bytes: seq<u8>, value: nat)

  // What reading a length from the bytes s gives.
  ghost function ReadSpec(s: seq<u8>): LebRead {
    if s == [] then LebEof
    else
      var d := Decode(s);
      if d.None? then LebError else LebOk(s[..d.value.1], d.value.0)
  }

  lemma {:induction false} ReadSpecOfEncoding(length: seq<u8>, rest: seq<u8>)
    requires IsLeb(length) && |length| <= MAX_SIZE && Value(length) <= UINT32_MAX
    ensures ReadSpec(length + rest) == LebOk(length, Value(length))
  {
    DecodeEncoding(length, rest);
    hide Decode, IsLeb, Value;
    assert (length + rest)[..|length|] == length;
  }

  // obudec_read_leb128
  method ReadLeb128(file: InputFile) returns (r: LebRead)
    requires file.Valid()
    modifies file
    ensures file.Valid() && file.pos >= old(file.pos)
    ensures r == ReadSpec(file.contents[old(file.pos)..])
    ensures r.LebEof? ==> file.eof && file.pos == old(file.pos)
    ensures r.LebOk? ==> file.eof == old(file.eof) && file.pos == old(file.pos) + |r.bytes|
  {
    hide Decode, Size;
    ghost var start, s := file.pos, file.contents[file.pos..];
    var bytes: seq<u8> := [];
    var len := 0;
    while len < MAX_SIZE
      invariant 0 <= len <= MAX_SIZE && len == |bytes| && file.Valid() && file.pos == start + len
      invariant file.eof == old(file.eof) && bytes == s[..len]
      invariant forall j :: 0 <= j < len ==> s[j] >= 0x80
    {
      var data := file.Read(1);
      if |data| == 0 {
        DecodeShort(s);
        if len == 0 && file.eof { return LebEof; }
        return LebError;
      }
      bytes := bytes + data;
      assert bytes == s[..len + 1];
      len := len + 1;
      if data[0] / 0x80 == 0 { break; }
    }
    var d := UlebDecode(bytes);
    DecodePrefix(s, bytes);
    if d.None? { return LebError; }
    return LebOk(bytes, d.value.0);
  }

  lemma {:induction false} DecodeShort(s: seq<u8>)
    requires |s| <= MAX_SIZE && forall j :: 0 <= j < |s| ==> s[j] >= 0x80
    ensures Decode(s) == None
  {
    SizeAt(s, |s|, MAX_SIZE);
  }

  // The bytes read so far decide the outcome.
  lemma {:induction false} DecodePrefix(s: seq<u8>, bytes: seq<u8>)
    requires bytes <= s && 0 < |bytes| <= MAX_SIZE
    requires forall j :: 0 <= j < |bytes| - 1 ==> bytes[j] >= 0x80
    requires |bytes| == MAX_SIZE || bytes[|bytes| - 1] < 0x80
    ensures Decode(s) == Decode(bytes) && (Decode(s).Some? ==> Decode(s).value.1 == |bytes|)
  {
    hide Size, Value;
    var n := |bytes|;
    if bytes[n - 1] < 0x80 {
      SizeAt(s, n - 1, MAX_SIZE);
      SizeAt(bytes, n - 1, MAX_SIZE);
      assert s[..n] == bytes == bytes[..n];
    } else {
      SizeAt(s, n, MAX_SIZE);
      SizeAt(bytes, n, MAX_SIZE);
    }
  }
}
