/** Detection of the length-delimited format: the first OBU of the first frame unit decides. */
module AnnexBDetection {
  import opened AnnexB
  import opened Files
  import opened Leb128
  import opened MachineInts
  import opened ObuHeaders
  import opened ObuReaders
  import opened Sequences

  // ----- what detection makes of the bytes of a file -----

  function After(s: seq<u8>, r: LebRead): seq<u8> {
    if r.LebOk? && |r.bytes| <= |s| then s[|r.bytes|..] else s
  }

  function Count(r: LebRead): nat { if r.LebOk? then |r.bytes| else 0 }

  // The size of the temporal unit, that of the frame unit, and an OBU.
  ghost predicate Accepts(s: seq<u8>) {
    var unit := ReadSpec(s);
    var frame := ReadSpec(After(s, unit));
    && !unit.LebError? && !frame.LebError?
    && AcceptsObu(After(After(s, unit), frame), Count(unit) + Count(frame))
  }

  // An OBU with its length in front, so many bytes into the file.
  ghost predicate AcceptsObu(s: seq<u8>, before: nat) {
    var obu := ReadSpec(s);
    obu.LebOk? && AcceptsHeader(After(s, obu), obu.value, before + |obu.bytes|)
  }

  ghost predicate AcceptsHeader(s: seq<u8>, size: nat, before: nat) {
    && s != [] && (ExtensionOf(s[0]) ==> |s| >= 2)
    && var n := if ExtensionOf(s[0]) then 2 else 1;
       var h := Parse(s[..n], true).1;
       if h.hasSizeField then
         var length := ReadSpec(s[n..]);
         && !length.LebError?
         && AcceptsPayload(After(s[n..], length), h, if length.LebOk? then length.value else 0,
                           before + n + Count(length))
       else n <= size && AcceptsPayload(s[n..], h, size - n, before + n)
  }

  ghost predicate AcceptsPayload(s: seq<u8>, h: ObuHeader, payload: nat, before: nat) {
    && (h.obuType == TEMPORAL_DELIMITER || h.obuType == SEQUENCE_HEADER)
    && (h.hasSizeField && h.obuType == TEMPORAL_DELIMITER ==> payload == 0)
    && (payload > 0 ==> before + payload <= OBU_BUFFER_SIZE && payload <= |s|)
  }

  // ----- file_is_obu on a length-delimited file -----

  lemma {:induction false} LeftAfter(contents: seq<u8>, pos: nat, r: LebRead)
    requires pos <= |contents| && r == ReadSpec(contents[pos..])
    ensures r.LebOk? ==> pos + |r.bytes| <= |contents| && After(contents[pos..], r) == contents[pos + |r.bytes|..]
    ensures !r.LebOk? ==> After(contents[pos..], r) == contents[pos..]
  {
    hide ReadSpec;
    ReadSpecBounds(contents[pos..]);
  }

  // A length; at the end of the file it is none.
  method ReadLength(file: InputFile) returns (r: LebRead)
    requires file.Valid()
    modifies file
    ensures file.Valid() && r == ReadSpec(file.contents[old(file.pos)..])
    ensures !r.LebError? ==>
      && file.pos == old(file.pos) + Count(r)
      && file.contents[file.pos..] == After(file.contents[old(file.pos)..], r)
  {
    hide ReadSpec;
    LeftAfter(file.contents, file.pos, ReadSpec(file.contents[file.pos..]));
    r := ReadLeb128(file);
  }

  method FileIsObu(file: InputFile) returns (ok: bool)
    requires file.Valid() && file.pos == 0 && !file.eof
    modifies file
    ensures file.Valid() && ok == Accepts(file.contents)
    ensures ok ==> file.pos == 0 && !file.eof
  {
    hide ReadSpec, After, AcceptsObu, Count;
    assert file.contents[0..] == file.contents;
    var unit := ReadLength(file);
    if unit.LebError? { return false; }
    var frame := ReadLength(file);
    if frame.LebError? { return false; }
    ok := FirstObu(file, Count(unit) + Count(frame));
    if ok { file.Rewind(); }
  }

  method FirstObu(file: InputFile, before: nat) returns (ok: bool)
    requires file.Valid()
    modifies file
    ensures file.Valid() && ok == AcceptsObu(file.contents[old(file.pos)..], before)
  {
    hide ReadSpec, After, AcceptsHeader;
    var obu := ReadLength(file);
    if obu.LebError? { file.Rewind(); return false; }
    if obu.LebEof? { return false; }
    ok := FirstHeader(file, obu.value, before + |obu.bytes|);
  }

  method FirstHeader(file: InputFile, size: nat, before: nat) returns (ok: bool)
    requires file.Valid()
    modifies file
    ensures file.Valid() && ok == AcceptsHeader(file.contents[old(file.pos)..], size, before)
  {
    hide ReadSpec, After, AcceptsPayload, ExtensionOf, Parse;
    ghost var s := file.contents[file.pos..];
    var raw := file.Read(1);
    if raw == [] { return false; }
    assert raw == s[..1];
    if ExtensionOf(raw[0]) {
      var second := file.Read(1);
      if |second| != 1 { file.Rewind(); return false; }
      assert second == s[1..2];
      raw := raw + second;
      assert raw == s[..2];
    }
    assert file.contents[file.pos..] == s[|raw|..];
    var parsed, h := ReadObuHeader(raw, true);
    if h.hasSizeField {
      var length := ReadLength(file);
      if length.LebError? { file.Rewind(); return false; }
      ok := FirstPayload(file, h, if length.LebOk? then length.value else 0, before + |raw| + Count(length));
    } else {
      if size < |raw| { file.Rewind(); return false; }
      ok := FirstPayload(file, h, size - |raw|, before + |raw|);
    }
  }

  method FirstPayload(file: InputFile, h: ObuHeader, payload: nat, before: nat) returns (ok: bool)
    requires file.Valid()
    modifies file
    ensures file.Valid() && ok == AcceptsPayload(file.contents[old(file.pos)..], h, payload, before)
  {
    if h.obuType != TEMPORAL_DELIMITER && h.obuType != SEQUENCE_HEADER { return false; }
    if h.hasSizeField && h.obuType == TEMPORAL_DELIMITER && payload != 0 { file.Rewind(); return false; }
    if payload > 0 {
      if before + payload > OBU_BUFFER_SIZE { file.Rewind(); return false; }
      var data := file.Read(payload);
      if |data| != payload { file.Rewind(); return false; }
    }
    return true;
  }

  // ----- well-formed streams -----

  // An OBU in a frame unit: its length, its header, a length field of its own or none, and its payload.
  datatype UnitObu = UnitObu(length: seq<u8>, header: ObuHeader, size: seq<u8>, payload: seq<u8>) {
    ghost predicate Valid() {
      && ValidHeader(header) && IsLeb(length) && |length| <= MAX_SIZE
      && Value(length) == header.size + |size| + |payload| <= UINT32_MAX
      && (if header.hasSizeField then IsLeb(size) && |size| <= MAX_SIZE && Value(size) == |payload| else size == [])
    }

    function Bytes(): seq<u8>
      requires ValidHeader(header)
    {
      length + (Print(header) + (size + payload))
    }

    // An empty temporal delimiter, or one without a length field of its own, or a sequence header.
    predicate Opens() {
      || header.obuType == SEQUENCE_HEADER
      || (header.obuType == TEMPORAL_DELIMITER && (header.hasSizeField ==> payload == []))
    }
  }

  lemma {:induction false} AfterEncoding(length: seq<u8>, rest: seq<u8>)
    requires IsLeb(length) && |length| <= MAX_SIZE && Value(length) <= UINT32_MAX
    ensures ReadSpec(length + rest) == LebOk(length, Value(length))
    ensures After(length + rest, ReadSpec(length + rest)) == rest
  {
    ReadSpecOfEncoding(length, rest);
    hide ReadSpec, IsLeb, Value;
  }

  lemma {:induction false} HeaderOfObu(o: UnitObu, rest: seq<u8>, before: nat)
    requires o.Valid()
    ensures
      var s := Print(o.header) + (o.size + o.payload) + rest;
      AcceptsHeader(s, Value(o.length), before)
      <==> AcceptsPayload(o.payload + rest, o.header, |o.payload|, before + o.header.size + |o.size|)
  {
    hide ReadSpec, IsLeb, Value, Parse, Print, ExtensionOf, TypeOf, SizeFieldOf, AcceptsPayload, ValidHeader;
    var raw := Print(o.header);
    var s := raw + (o.size + o.payload) + rest;
    PrintThenParse(o.header, true);
    HeaderSize(o.header);
    Regroup(raw, o.size + o.payload, rest);
    Regroup(o.size, o.payload, rest);
    assert s[0] == raw[0] && s[..|raw|] == raw && s[|raw|..] == o.size + (o.payload + rest);
    if o.header.hasSizeField {
      AfterEncoding(o.size, o.payload + rest);
    } else {
      assert o.size + (o.payload + rest) == o.payload + rest;
    }
  }

  lemma {:induction false} HeaderSize(h: ObuHeader)
    requires ValidHeader(h)
    ensures h.size == if h.hasExtension then 2 else 1
  {
  }

  lemma {:induction false} FirstObuOf(o: UnitObu, rest: seq<u8>, before: nat)
    requires o.Valid()
    ensures
      AcceptsObu(o.Bytes() + rest, before)
      <==> AcceptsPayload(o.payload + rest, o.header, |o.payload|, before + |o.length| + o.header.size + |o.size|)
  {
    hide ReadSpec, IsLeb, Value, Print, AcceptsPayload, AcceptsHeader, ValidHeader;
    var tail := Print(o.header) + (o.size + o.payload);
    Regroup(o.length, tail, rest);
    AfterEncoding(o.length, tail + rest);
    HeaderOfObu(o, rest, before + |o.length|);
  }

  // In bytes: the first one after the length holds a type, 1 or 2, and the flag of a length field.
  lemma {:induction false} OpensIs(o: UnitObu)
    requires o.Valid()
    ensures |o.Bytes()| > |o.length|
    ensures
      var b := o.Bytes()[|o.length|];
      o.Opens() <==> b / 8 % 16 == 1 || (b / 8 % 16 == 2 && (b / 2 % 2 == 1 ==> o.payload == []))
  {
    PrintThenParse(o.header, true);
    assert o.Bytes()[|o.length|] == Print(o.header)[0];
  }

  /** A well-formed stream is accepted exactly when its first OBU opens one and ends within the size of the buffer. */
  lemma {:induction false} AcceptsStream(units: seq<TemporalUnit>, o: UnitObu, more: seq<u8>)
    requires units != [] && ValidStream(units) && o.Valid()
    requires units[0].frames != [] && units[0].frames[0].data == o.Bytes() + more
    ensures
      Accepts(StreamBytes(units)) <==>
        && o.Opens()
        && (o.payload == [] || |units[0].length| + |units[0].frames[0].length| + |o.Bytes()| <= 512_000)
  {
    var u := units[0];
    var f, rest := u.frames[0], FrameBytes(u.frames[1..]) + StreamBytes(units[1..]);
    assert u.Valid() && f.Valid();
    OpeningBytes(units);
    hide ReadSpec, IsLeb, Value, Print, StreamBytes, FrameBytes, AcceptsObu, ValidHeader, ValidStream;
    AfterEncoding(u.length, f.length + (f.data + rest));
    AfterEncoding(f.length, f.data + rest);
    Regroup(o.Bytes(), more, rest);
    FirstObuOf(o, more + rest, |u.length| + |f.length|);
  }

  lemma {:induction false} OpeningBytes(units: seq<TemporalUnit>)
    requires units != [] && ValidStream(units)
    ensures
      var u := units[0];
      u.frames != []
      && StreamBytes(units) == u.length + (u.frames[0].length
                               + (u.frames[0].data + (FrameBytes(u.frames[1..]) + StreamBytes(units[1..]))))
  {
    var u := units[0];
    assert u.Valid();
    FirstFrame(u.frames);
    hide IsLeb, Value;
    assert StreamBytes(units) == u.length + FrameBytes(u.frames) + StreamBytes(units[1..]);
  }
}
