/** Cutting a low-overhead OBU stream (section 5.2 of the AV1 bitstream specification) into temporal units. */
module ObuReaders {
  import Memory
  import opened Arithmetic
  import opened Files
  import opened Leb128
  import opened MachineInts
  import opened ObuHeaders

  const OBU_BUFFER_SIZE := 500 * 1024
  const OBU_MAX_HEADER_SIZE := 18
  const MAX_PAYLOAD := 256 * 1024 * 1024

  // ----- reading one header and size -----

  // sized: the length field was there; at the end of the file the code takes it for zero.
  datatype HeaderScan = ScanError | ScanEnd | ScanObu(raw: seq<u8>, payload: nat, header: ObuHeader, sized: bool)

  // What obudec_read_obu_header_and_size makes of the bytes s left in the file.
  ghost function ScanHeader(s: seq<u8>): HeaderScan {
    if s == [] then ScanEnd
    else if ExtensionOf(s[0]) && |s| < 2 then ScanError
    else
      var n := if ExtensionOf(s[0]) then 2 else 1;
      var header := Parse(s[..n], false).1;
      if !header.hasSizeField then ScanError
      else
        match ReadSpec(s[n..])
        case LebError => ScanError
        case LebEof => ScanObu(s[..n], 0, header, false)
        case LebOk(bytes, value) => ScanObu(s[..n] + bytes, value, header, true)
  }

  lemma {:induction false} ScanHeaderBounds(s: seq<u8>)
    ensures
      var r := ScanHeader(s);
      (r.ScanEnd? <==> s == []) && (r.ScanObu? ==> 1 <= |r.raw| <= 10 && r.raw <= s && (r.sized || r.raw == s))
  {
    if ScanHeader(s).ScanObu? {
      var n := if ExtensionOf(s[0]) then 2 else 1;
      assert s[..n] + s[n..] == s;
      hide ExtensionOf, Parse;
    }
  }

  // obudec_read_obu_header and obudec_read_obu_header_and_size; the result of the header
  // parse is ignored.
  method ReadHeaderAndSize(file: InputFile) returns (r: HeaderScan)
    requires file.Valid()
    modifies file
    ensures file.Valid() && file.pos >= old(file.pos)
    ensures r == ScanHeader(file.contents[old(file.pos)..])
    ensures r.ScanEnd? ==> file.eof && file.pos == old(file.pos)
    ensures r.ScanObu? ==> file.pos == old(file.pos) + |r.raw|
    ensures r.ScanObu? ==> file.eof == (old(file.eof) || !r.sized)
  {
    hide Decode, ExtensionOf, Parse;
    ghost var s := file.contents[file.pos..];
    var raw := file.Read(1);
    if raw == [] { return ScanEnd; }
    assert raw == s[..1];
    if ExtensionOf(raw[0]) {
      var second := file.Read(1);
      if |second| != 1 { return ScanError; }
      raw := raw + second;
      assert raw == s[..2];
    }
    ghost var n := |raw|;
    assert file.contents[file.pos..] == s[n..];
    var ok, header := ReadObuHeader(raw, false);
    if !header.hasSizeField { return ScanError; }
    var length := ReadLeb128(file);
    match length {
      case LebError => return ScanError;
      case LebEof => return ScanObu(raw, 0, header, false);
      case LebOk(bytes, value) => return ScanObu(raw + bytes, value, header, true);
    }
  }

  // ----- the capacity of the carry-over buffer -----

  // After making room for a header.
  function GrownForHeader(capacity: nat, buffered: nat): (c: nat)
    requires buffered <= capacity
    ensures c >= capacity && c - buffered >= OBU_MAX_HEADER_SIZE
  {
    if capacity - buffered < OBU_MAX_HEADER_SIZE then capacity + Max(capacity, OBU_MAX_HEADER_SIZE) else capacity
  }

  // What the code then believes to be available: it credits the capacity after growth,
  // not the amount grown.
  function Believed(capacity: nat, buffered: nat): nat
    requires buffered <= capacity
  {
    var available := capacity - buffered;
    if available < OBU_MAX_HEADER_SIZE then available + Max(GrownForHeader(capacity, buffered), OBU_MAX_HEADER_SIZE)
        else available
  }

  // After making room for a payload.
  function CapacityFor(capacity: nat, buffered: nat, raw: nat, payload: nat): (c: nat)
    requires buffered <= capacity
    ensures c >= GrownForHeader(capacity, buffered)
  {
    var c := GrownForHeader(capacity, buffered);
    if raw + payload > Believed(capacity, buffered) then c + Max(c, payload) else c
  }

  // Whether stored bytes of payload run past the end of the buffer.
  predicate Overruns(capacity: nat, buffered: nat, raw: nat, payload: nat, stored: nat)
    requires buffered <= capacity
  {
    buffered + raw + stored > CapacityFor(capacity, buffered, raw, payload)
  }

  // An OBU does not fit exactly when the buffer had to grow for its header and it needs
  // more than the room really there but not more than the room believed to be there.
  lemma {:induction false} OverrunCondition(capacity: nat, buffered: nat, raw: nat, payload: nat)
    requires buffered <= capacity && 0 < raw <= 18
    ensures
      var grown := if capacity - buffered >= 18 then capacity else capacity + Max(capacity, 18);
      Overruns(capacity, buffered, raw, payload, payload) <==>
        && capacity - buffered < 18
        && grown - buffered < raw + payload <= capacity - buffered + grown
  {
  }

  // So an OBU no larger than the current capacity always fits ...
  lemma {:induction false} SmallObuFits(capacity: nat, buffered: nat, raw: nat, payload: nat)
    requires buffered <= capacity && 0 < raw <= OBU_MAX_HEADER_SIZE && raw + payload <= capacity
    ensures !Overruns(capacity, buffered, raw, payload, payload)
  {
  }

  // ... and with the initial buffer nearly full a 600000-byte OBU does not.
  lemma {:induction false} OverrunExample()
    ensures Overruns(OBU_BUFFER_SIZE, OBU_BUFFER_SIZE - 10, 4, 599_996, 599_996)
  {
  }

  // ----- one OBU -----

  // Failed: the code returns an error. Overran: it writes past the end of its buffer.
  datatype OneObu = Failed | Overran | Read(length: nat, obuType: nat, sized: bool)

  ghost function ScanOne(s: seq<u8>, buffered: nat, capacity: nat): OneObu
    requires buffered <= capacity
  {
    match ScanHeader(s)
    case ScanError => Failed
    case ScanEnd => Read(0, 0, false)
    case ScanObu(raw, payload, header, sized) =>
      if |raw| > |s| || payload > MAX_PAYLOAD then Failed
      else
        var stored := if |raw| + payload <= |s| then payload else |s| - |raw|;
        if Overruns(capacity, buffered, |raw|, payload, stored) then Overran
        else if stored < payload then Failed
        else Read(|raw| + payload, header.obuType, sized)
  }

  // The capacity after reading one OBU.
  ghost function CapacityAfter(s: seq<u8>, buffered: nat, capacity: nat): (c: nat)
    requires buffered <= capacity
    ensures c >= capacity
  {
    var h := ScanHeader(s);
    if h.ScanObu? && h.payload <= MAX_PAYLOAD then CapacityFor(capacity, buffered, |h.raw|, h.payload)
    else GrownForHeader(capacity, buffered)
  }

  lemma {:induction false} ScanOneBounds(s: seq<u8>, buffered: nat, capacity: nat)
    requires buffered <= capacity
    ensures
      var r := ScanOne(s, buffered, capacity);
      r.Read? ==>
          r.length <= |s| && buffered + r.length <= CapacityAfter(s, buffered, capacity)
          && (r.length == 0 <==> s == []) && (r.sized || r.length == |s|) && (r.length == 0 ==> !r.sized)
  {
    hide ScanHeader;
    ScanHeaderBounds(s);
  }

  // ----- one temporal unit -----

  // UnitScanned: OBUs of body bytes, then one of next bytes that starts the next unit, or
  // the end of the file when next is zero; atEof says whether the end-of-file flag is set.
  datatype UnitScan = UnitFailed | UnitOverran | UnitScanned(body: nat, next: nat, capacity: nat, atEof: bool)

  ghost function ScanUnit(s: seq<u8>, buffered: nat, capacity: nat): UnitScan
    requires buffered <= capacity
    decreases |s|
  {
    ScanOneBounds(s, buffered, capacity);
    match ScanOne(s, buffered, capacity)
    case Failed => UnitFailed
    case Overran => UnitOverran
    case Read(length, obuType, sized) =>
      var c := CapacityAfter(s, buffered, capacity);
      if length == 0 || obuType == TEMPORAL_DELIMITER then UnitScanned(0, length, c, !sized)
      else
        match ScanUnit(s[length..], buffered + length, c)
        case UnitFailed => UnitFailed
        case UnitOverran => UnitOverran
        case UnitScanned(body, next, capacity', atEof) => UnitScanned(length + body, next, capacity', atEof)
  }

  // The scan of s, given the scan of what is left after its first done bytes.
  ghost function Later(r: UnitScan, done: nat): UnitScan {
    if r.UnitScanned? then UnitScanned(done + r.body, r.next, r.capacity, r.atEof) else r
  }

  lemma {:induction false} ScanUnitStep(s: seq<u8>, done: nat, buffered: nat, capacity: nat)
    requires buffered <= capacity && done <= |s|
    ensures
      var one, rest := ScanOne(s[done..], buffered, capacity), ScanUnit(s[done..], buffered, capacity);
      match one
      case Failed => rest == UnitFailed
      case Overran => rest == UnitOverran
      case Read(length, obuType, sized) =>
        var c := CapacityAfter(s[done..], buffered, capacity);
        && done + length <= |s| && buffered + length <= c && (length == 0 <==> done == |s|) && (length == 0 ==> !sized)
             && (sized || done + length == |s|)
        && if length == 0 || obuType == TEMPORAL_DELIMITER then rest == UnitScanned(0, length, c, !sized)
           else Later(rest, done) == Later(ScanUnit(s[done + length..], buffered + length, c), done + length)
  {
    hide ScanOne, CapacityAfter;
    var r := s[done..];
    ScanOneBounds(r, buffered, capacity);
    var one := ScanOne(r, buffered, capacity);
    if one.Read? {
      assert r[one.length..] == s[done + one.length..];
    }
  }

  lemma {:induction false} ScanUnitBounds(s: seq<u8>, buffered: nat, capacity: nat)
    requires buffered <= capacity
    ensures
      var r := ScanUnit(s, buffered, capacity);
      r.UnitScanned? ==>
          r.body + r.next <= |s| && buffered + r.body + r.next <= r.capacity
          && (r.next == 0 ==> r.body == |s|)
    decreases |s|
  {
    hide ScanOne, CapacityAfter;
    ScanOneBounds(s, buffered, capacity);
    var one := ScanOne(s, buffered, capacity);
    if one.Read? && one.length != 0 && one.obuType != TEMPORAL_DELIMITER {
      ScanUnitBounds(s[one.length..], buffered + one.length, CapacityAfter(s, buffered, capacity));
    }
  }

  // Stopped: no unit, end of file or an error. Overrun: a write past the end of the buffer.
  datatype UnitStatus = Returned | Stopped | Overrun

  // What file_is_obu accepts: a first OBU that is a temporal delimiter without payload, or
  // a sequence header that fits the initial buffer.
  ghost predicate Detects(s: seq<u8>) {
    var h := ScanHeader(s);
    && h.ScanObu?
    && (if h.header.obuType == TEMPORAL_DELIMITER then h.payload == 0 else h.header.obuType == SEQUENCE_HEADER)
    && (h.payload > 0 ==> |h.raw| + h.payload <= OBU_BUFFER_SIZE && |h.raw| + h.payload <= |s|)
  }

  // The type it looks at stands in four bits of the first byte: 2 is a temporal delimiter, 1 a sequence header.
  lemma {:induction false} DetectsType(s: seq<u8>)
    requires Detects(s)
    ensures s != [] && s[0] / 8 % 16 in {1, 2}
  {
  }

  class ObuReader {
    const file: InputFile
    var buffer: array<u8>
    var bytesBuffered: nat
    ghost var held: seq<u8>  // the bytes of the buffer that have been stored

    ghost predicate Valid()
      reads this, file, buffer
    {
      file.Valid() && bytesBuffered <= |held| <= buffer.Length && buffer[..|held|] == held
    }

    constructor (contents: seq<u8>)
      ensures Valid() && fresh(file) && fresh(buffer) && bytesBuffered == 0 && held == []
      ensures file.contents == contents && file.pos == 0 && !file.eof
    {
      file := new InputFile(contents);
      buffer := new u8[0];
      bytesBuffered := 0;
      held := [];
    }

    // obudec_grow_buffer
    method GrowBuffer(growth: nat)
      requires Valid()
      modifies this`buffer
      ensures Valid() && fresh(buffer) && buffer.Length == old(buffer.Length) + growth
    {
      var grown := new u8[buffer.Length + growth];
      Memory.Copy(grown, 0, buffer[..]);
      buffer := grown;
      assert buffer[..|held|] == old(buffer[..])[..|held|];
    }

    // memcpy behind the bytes already stored.
    method Store(at: nat, data: seq<u8>)
      requires Valid() && at == |held| && at + |data| <= buffer.Length
      modifies this`held, buffer
      ensures Valid() && held == old(held) + data
    {
      Memory.Copy(buffer, at, data);
      held := held + data;
    }

    // The second half of obudec_read_one_obu: the payload, behind a stored header.
    method ReadPayload(h: HeaderScan, available: nat) returns (r: OneObu)
      requires Valid() && h.ScanObu? && |held| == bytesBuffered + |h.raw|
      modifies this`buffer, this`held, buffer, file
      ensures Valid() && (buffer == old(buffer) || fresh(buffer))
      ensures
        var n, s, cap := |h.raw|, file.contents[old(file.pos)..], old(buffer.Length);
        var cap' := if n + h.payload > available then cap + Max(cap, h.payload) else cap;
        var stored := if h.payload <= |s| then h.payload else |s|;
        if h.payload > MAX_PAYLOAD then r == Failed
        else if |old(held)| + stored > cap' then r == Overran
        else if stored < h.payload then r == Failed
        else
          && r == Read(n + h.payload, h.header.obuType, h.sized) && buffer.Length == cap'
          && held == old(held) + s[..h.payload]
          && file.pos == old(file.pos) + h.payload && file.eof == old(file.eof)
    {
      hide Max;
      if h.payload > MAX_PAYLOAD { return Failed; }
      var n := |h.raw|;
      if n + h.payload > available {
        GrowBuffer(Max(buffer.Length, h.payload));
      }
      var data := file.Read(h.payload);
      if bytesBuffered + n + |data| > buffer.Length { return Overran; }
      Store(bytesBuffered + n, data);
      if |data| != h.payload { return Failed; }
      return Read(n + h.payload, h.header.obuType, h.sized);
    }

    // The first growth of obudec_read_one_obu, and what it then believes to be available.
    method MakeHeaderRoom() returns (available: nat)
      requires Valid()
      modifies this`buffer
      ensures Valid() && (buffer == old(buffer) || fresh(buffer))
      ensures buffer.Length == GrownForHeader(old(buffer.Length), bytesBuffered)
      ensures available == Believed(old(buffer.Length), bytesBuffered)
    {
      available := buffer.Length - bytesBuffered;
      if available < OBU_MAX_HEADER_SIZE {
        GrowBuffer(Max(buffer.Length, OBU_MAX_HEADER_SIZE));
        available := available + Max(buffer.Length, OBU_MAX_HEADER_SIZE);
      }
    }

    // obudec_read_one_obu
    method ReadOneObu() returns (r: OneObu)
      requires Valid() && bytesBuffered == |held|
      modifies this`buffer, this`held, buffer, file
      ensures Valid() && (buffer == old(buffer) || fresh(buffer))
      ensures
        var s := file.contents[old(file.pos)..];
        && r == ScanOne(s, bytesBuffered, old(buffer.Length))
        && (r.Read? ==>
          && buffer.Length == CapacityAfter(s, bytesBuffered, old(buffer.Length))
          && r.length <= |s| && held == old(held) + s[..r.length]
          && file.pos == old(file.pos) + r.length
          && file.eof == (old(file.eof) || !r.sized))
    {
      hide ScanHeader, GrownForHeader, Believed, Max;
      ghost var s := file.contents[file.pos..];
      ScanHeaderBounds(s);
      var available := MakeHeaderRoom();
      var h := ReadHeaderAndSize(file);
      if h.ScanError? { return Failed; }
      if h.ScanEnd? { return Read(0, 0, false); }
      Store(bytesBuffered, h.raw);
      assert file.contents[file.pos..] == s[|h.raw|..];
      r := ReadPayload(h, available);
      assert r.Read? ==> h.raw + s[|h.raw|..][..h.payload] == s[..|h.raw| + h.payload];
    }

    // The loop of obudec_read_temporal_unit: buffers OBUs up to the next temporal delimiter.
    method BufferUnit() returns (status: UnitStatus, next: nat)
      requires Valid() && bytesBuffered == |held| && !file.eof
      modifies this, buffer, file
      ensures Valid() && (buffer == old(buffer) || fresh(buffer))
      ensures
        var s := file.contents[old(file.pos)..];
        match ScanUnit(s, old(|held|), old(buffer.Length))
        case UnitFailed => status == Stopped
        case UnitOverran => status == Overrun
        case UnitScanned(body, n, capacity, atEof) =>
          && status == Returned && next == n && buffer.Length == capacity && body + n <= |s|
          && bytesBuffered == old(|held|) + body && held == old(held) + s[..body + n]
          && file.pos == old(file.pos) + body + n
          && file.eof == atEof
    {
      hide ScanOne, CapacityAfter, ScanUnit;
      ghost var s := file.contents[file.pos..];
      ghost var done := 0;
      while true
        invariant Valid() && bytesBuffered == |held| && (buffer == old(buffer) || fresh(buffer))
        invariant done <= |s| && file.pos == old(file.pos) + done && held == old(held) + s[..done]
        invariant done < |s| ==> !file.eof
        invariant ScanUnit(s, old(|held|), old(buffer.Length))
            == Later(ScanUnit(s[done..], bytesBuffered, buffer.Length), done)
        decreases |file.contents| - file.pos
      {
        assert file.contents[file.pos..] == s[done..];
        ScanUnitStep(s, done, bytesBuffered, buffer.Length);
        var one := ReadOneObu();
        if one.Failed? { return Stopped, 0; }
        if one.Overran? { return Overrun, 0; }
        assert s[..done] + s[done..][..one.length] == s[..done + one.length];
        if one.obuType == TEMPORAL_DELIMITER || one.length == 0 {
          return Returned, one.length;
        }
        bytesBuffered := bytesBuffered + one.length;
        done := done + one.length;
      }
    }

    // Copies the unit out and moves the OBU after it to the front of the buffer.
    method TakeUnit(next: nat) returns (unit: seq<u8>)
      requires Valid() && bytesBuffered + next == |held|
      modifies this`bytesBuffered, this`held, buffer
      ensures Valid() && bytesBuffered == |held|
      ensures unit == old(held[..bytesBuffered]) && held == old(held[bytesBuffered..])
    {
      unit := buffer[..bytesBuffered];
      assert unit == held[..bytesBuffered];
      var moved := buffer[bytesBuffered..bytesBuffered + next];
      assert moved == held[bytesBuffered..];
      Memory.Copy(buffer, 0, moved);
      bytesBuffered := next;
      held := moved;
    }

    // obudec_read_temporal_unit on a low-overhead stream.
    method ReadTemporalUnit() returns (status: UnitStatus, unit: seq<u8>)
      requires Valid() && bytesBuffered == |held|
      modifies this, buffer, file
      ensures Valid() && (buffer == old(buffer) || fresh(buffer))
      ensures old(file.eof) ==> status == Stopped && file.pos == old(file.pos) && file.eof
      ensures !old(file.eof) ==>
        var s := file.contents[old(file.pos)..];
        match ScanUnit(s, old(|held|), old(buffer.Length))
        case UnitFailed => status == Stopped
        case UnitOverran => status == Overrun
        case UnitScanned(body, n, capacity, atEof) =>
          && status == Returned && buffer.Length == capacity && body + n <= |s|
          && unit == old(held) + s[..body] && held == s[body..body + n] && bytesBuffered == |held|
          && file.pos == old(file.pos) + body + n
          && file.eof == atEof
    {
      hide ScanUnit;
      unit := [];
      if file.eof { return Stopped, []; }
      ghost var s := file.contents[file.pos..];
      var next: nat;
      status, next := BufferUnit();
      if status == Returned {
        assert held == old(held) + s[..bytesBuffered - |old(held)|] + s[bytesBuffered - |old(held)|..][..next];
        unit := TakeUnit(next);
      }
    }

    // file_is_obu on a low-overhead stream: buffers the first OBU.
    method FileIsObu() returns (ok: bool)
      requires Valid() && file.pos == 0 && !file.eof && bytesBuffered == 0 && held == []
      modifies this, buffer, file
      ensures Valid() && (buffer == old(buffer) || fresh(buffer))
      ensures ok == Detects(file.contents)
      ensures ok ==>
        var h := ScanHeader(file.contents);
        && buffer.Length == OBU_BUFFER_SIZE && file.eof == !h.sized
        && file.pos == |h.raw| + h.payload == bytesBuffered && held == file.contents[..bytesBuffered]
    {
      hide ScanHeader;
      ghost var s := file.contents;
      ScanHeaderBounds(s);
      assert s[0..] == s;
      var h := ReadHeaderAndSize(file);
      if h.ScanError? { file.Rewind(); return false; }
      if h.ScanEnd? { return false; }
      if h.header.obuType != TEMPORAL_DELIMITER && h.header.obuType != SEQUENCE_HEADER { return false; }
      if h.header.obuType == TEMPORAL_DELIMITER && h.payload != 0 { file.Rewind(); return false; }
      buffer := new u8[OBU_BUFFER_SIZE];
      Store(0, h.raw);
      bytesBuffered := |h.raw|;
      if h.payload > 0 {
        if h.payload > buffer.Length - |h.raw| { file.Rewind(); return false; }
        assert file.contents[file.pos..] == s[|h.raw|..];
        var data := file.Read(h.payload);
        if |data| != h.payload { file.Rewind(); return false; }
        assert h.raw + data == s[..|h.raw| + h.payload];
        Store(bytesBuffered, data);
        bytesBuffered := bytesBuffered + h.payload;
      }
      return true;
    }
  }
}
