/** The length-delimited format (section B.2 of the AV1 bitstream specification), frame unit by frame unit. */
module AnnexB {
  import opened Files
  import opened Leb128
  import opened MachineInts
  import opened Sequences

  const TWO_64 := 0x1_0000_0000_0000_0000

  // Subtraction on 64 bits.
  function Less(rem: u64, n: nat): u64 { (rem - n) % TWO_64 }

  lemma {:induction false} LessIsExact(rem: u64, n: nat)
    requires n <= rem
    ensures Less(rem, n) == rem - n
  {
  }

  // A call returns the data of a frame unit, with rest unread in the file and remaining
  // bytes to come of the temporal unit, or it stops.
  datatype Step = Stop | Frame(data: seq<u8>, rest: seq<u8>, remaining: u64)

  // What obudec_read_temporal_unit does with the bytes s left when rem bytes of the
  // temporal unit remain.
  ghost function NextFrame(s: seq<u8>, rem: u64): Step {
    if rem != 0 then FrameAfter(s, rem)
    else
      var unit := ReadSpec(s);
      if !unit.LebOk? || unit.value + |unit.bytes| > UINT32_MAX || |unit.bytes| > |s| then Stop
      else FrameAfter(s[|unit.bytes|..], unit.value)
  }

  // The same once the temporal unit size is read.
  ghost function FrameAfter(s: seq<u8>, rem: u64): (step: Step)
    ensures step.Frame? ==> step.data != [] && |step.data| + |step.rest| <= |s|
  {
    var frame := ReadSpec(s);
    if !frame.LebOk? || frame.value == 0 then Stop
    else
      var n := |frame.bytes|;
      if |s| < n + frame.value then Stop
      else Frame(s[n..n + frame.value], s[n + frame.value..], Less(rem, frame.value + n))
  }

  class AnnexBReader {
    const file: InputFile
    var remTxbSize: u64

    ghost predicate Valid()
      reads this, file
    {
      file.Valid()
    }

    // The state file_is_obu leaves: the file rewound, nothing buffered.
    constructor (contents: seq<u8>)
      ensures Valid() && fresh(file) && file.contents == contents && file.pos == 0 && !file.eof && remTxbSize == 0
    {
      file := new InputFile(contents);
      remTxbSize := 0;
    }

    // obudec_read_temporal_unit
    method ReadFrameUnit() returns (ok: bool, data: seq<u8>)
      requires Valid()
      modifies this, file
      ensures Valid()
      ensures old(file.eof) ==> !ok
      ensures !old(file.eof) ==>
        match NextFrame(file.contents[old(file.pos)..], old(remTxbSize))
        case Stop => !ok
        case Frame(d, rest, remaining) =>
          ok && !file.eof && data == d && file.contents[file.pos..] == rest && remTxbSize == remaining
    {
      hide ReadSpec, Less, FrameAfter;
      data := [];
      if file.eof { return false, []; }
      ghost var s := file.contents[file.pos..];
      ReadSpecBounds(s);
      var size, lengthOfUnit := 0, 0;
      if remTxbSize == 0 {
        var unit := ReadLeb128(file);
        if unit.LebError? { return false, []; }
        if unit.LebOk? {
          size, lengthOfUnit := unit.value, |unit.bytes|;
        }
        if size == 0 && file.eof { return false, []; }
        remTxbSize := size;
      }
      if size > UINT32_MAX || size + lengthOfUnit > UINT32_MAX { return false, []; }
      ghost var t := s[lengthOfUnit..];
      assert file.contents[file.pos..] == t;
      ok, data := ReadFrame(size);
    }

    // The frame unit: its length field, then its bytes.
    method ReadFrame(unitSize: nat) returns (ok: bool, data: seq<u8>)
      requires Valid() && !file.eof
      modifies this, file
      ensures Valid()
      ensures
        match FrameAfter(file.contents[old(file.pos)..], old(remTxbSize))
        case Stop => !ok
        case Frame(d, rest, remaining) =>
          ok && !file.eof && data == d && file.contents[file.pos..] == rest && remTxbSize == remaining
    {
      hide ReadSpec, Less;
      ghost var s := file.contents[file.pos..];
      ReadSpecBounds(s);
      var size := unitSize;
      var frame := ReadLeb128(file);
      if frame.LebError? { return false, []; }
      if frame.LebOk? { size := frame.value; }
      if size == 0 || file.eof { return false, []; }
      assert file.contents[file.pos..] == s[|frame.bytes|..];
      data := file.Read(size);
      if |data| != size { return false, []; }
      remTxbSize := Less(remTxbSize, size + |frame.bytes|);
      return true, data;
    }
  }

  lemma {:induction false} ReadSpecBounds(s: seq<u8>)
    ensures var r := ReadSpec(s); r.LebOk? ==> 0 < |r.bytes| <= MAX_SIZE && r.bytes <= s && r.value <= UINT32_MAX
  {
    hide Value;
  }

  // ----- well-formed streams -----

  datatype FrameUnit = FrameUnit(length: seq<u8>, data: seq<u8>) {
    ghost predicate Valid() {
      IsLeb(length) && |length| <= MAX_SIZE && Value(length) == |data| && 0 < |data| <= UINT32_MAX
    }

    function Bytes(): seq<u8> { length + data }
  }

  datatype TemporalUnit = TemporalUnit(length: seq<u8>, frames: seq<FrameUnit>) {
    ghost predicate Valid() {
      && IsLeb(length) && |length| <= MAX_SIZE && Value(length) == |FrameBytes(frames)| <= UINT32_MAX
      && frames != [] && forall i :: 0 <= i < |frames| ==> frames[i].Valid()
    }

    ghost function Bytes(): seq<u8> { length + FrameBytes(frames) }

    // The reader refuses a temporal unit whose size plus its length field passes 32 bits.
    ghost predicate Accepted() { Value(length) + |length| <= UINT32_MAX }
  }

  ghost function FrameBytes(frames: seq<FrameUnit>): seq<u8> {
    if frames == [] then [] else frames[0].Bytes() + FrameBytes(frames[1..])
  }

  ghost function StreamBytes(units: seq<TemporalUnit>): seq<u8> {
    if units == [] then [] else units[0].Bytes() + StreamBytes(units[1..])
  }

  ghost predicate ValidStream(units: seq<TemporalUnit>) {
    forall i :: 0 <= i < |units| ==> units[i].Valid()
  }

  ghost function FrameData(frames: seq<FrameUnit>): seq<seq<u8>> {
    if frames == [] then [] else [frames[0].data] + FrameData(frames[1..])
  }

  // The frame units of the temporal units up to the first one the reader refuses.
  ghost function FramesOf(units: seq<TemporalUnit>): seq<seq<u8>> {
    if units == [] || !units[0].Accepted() then [] else FrameData(units[0].frames) + FramesOf(units[1..])
  }

  lemma {:induction false} FrameAfterData(f: FrameUnit, rest: seq<u8>, rem: u64)
    requires f.Valid()
    ensures FrameAfter(f.length + f.data + rest, rem) == Frame(f.data, rest, Less(rem, |f.data| + |f.length|))
  {
    ReadSpecOfEncoding(f.length, f.data + rest);
    hide ReadSpec, IsLeb, Value, Less;
    assert f.length + f.data + rest == f.length + (f.data + rest);
  }

  // Inside a temporal unit the next call returns the next frame unit; the counter is the
  // unread part of the unit before and after, and reaches zero at its end.
  lemma {:induction false} FrameInUnit(frames: seq<FrameUnit>, rest: seq<u8>)
    requires frames != [] && (forall i :: 0 <= i < |frames| ==> frames[i].Valid()) && |FrameBytes(frames)| <= UINT32_MAX
    ensures FrameAfter(FrameBytes(frames) + rest, |FrameBytes(frames)|)
         == Frame(frames[0].data, FrameBytes(frames[1..]) + rest, |FrameBytes(frames[1..])|)
    ensures |FrameBytes(frames)| > 0 && (|FrameBytes(frames[1..])| == 0 <==> |frames| == 1)
  {
    var f, tail := frames[0], FrameBytes(frames[1..]);
    var size: u64 := |FrameBytes(frames)|;
    hide *;
    FirstFrame(frames);
    Regroup(f.length + f.data, tail, rest);
    FrameAfterData(f, tail + rest, size);
    LessIsExact(size, |f.data| + |f.length|);
  }

  lemma {:induction false} FirstFrame(frames: seq<FrameUnit>)
    requires frames != [] && forall i :: 0 <= i < |frames| ==> frames[i].Valid()
    ensures FrameBytes(frames) == frames[0].length + frames[0].data + FrameBytes(frames[1..])
    ensures |FrameBytes(frames)| == |frames[0].length| + |frames[0].data| + |FrameBytes(frames[1..])|
        && |frames[0].data| > 0
    ensures |FrameBytes(frames[1..])| == 0 <==> |frames| == 1
  {
    hide IsLeb, Value;
    assert frames[0].Valid();
    if |frames| > 1 {
      assert frames[1].Valid();
      assert FrameBytes(frames[1..]) == frames[1].Bytes() + FrameBytes(frames[1..][1..]);
    }
  }

  // At a boundary, with the counter at zero, the next call opens the next temporal unit.
  lemma {:induction false} FrameAtBoundary(units: seq<TemporalUnit>)
    requires units != [] && ValidStream(units)
    ensures
      var u := units[0];
      NextFrame(StreamBytes(units), 0) ==
        if u.Accepted() then
          Frame(u.frames[0].data, FrameBytes(u.frames[1..]) + StreamBytes(units[1..]), |FrameBytes(u.frames[1..])|)
        else Stop
  {
    var u, rest := units[0], StreamBytes(units[1..]);
    assert u.Valid();
    assert StreamBytes(units) == u.length + (FrameBytes(u.frames) + rest);
    ReadSpecOfEncoding(u.length, FrameBytes(u.frames) + rest);
    FrameInUnit(u.frames, rest);
    hide ReadSpec, IsLeb, Value, FrameAfter, FrameBytes, StreamBytes;
    assert (u.length + (FrameBytes(u.frames) + rest))[|u.length|..] == FrameBytes(u.frames) + rest;
  }

  // A temporal unit of the largest size there is: valid, and refused.
  lemma {:induction false} RefusedUnit()
    ensures
      var f := FrameUnit([0xFA, 0xFF, 0xFF, 0xFF, 0x0F], seq(0xFFFF_FFFA, _ => 0));
      var u := TemporalUnit([0xFF, 0xFF, 0xFF, 0xFF, 0x0F], [f]);
      u.Valid() && !u.Accepted() && NextFrame(StreamBytes([u]), 0) == Stop
  {
    var f := FrameUnit([0xFA, 0xFF, 0xFF, 0xFF, 0x0F], seq(0xFFFF_FFFA, _ => 0));
    var u := TemporalUnit([0xFF, 0xFF, 0xFF, 0xFF, 0x0F], [f]);
    FiveByteLength(0x7A);
    FiveByteLength(0x7F);
    hide IsLeb, Value, NextFrame;
    FirstFrame([f]);
    assert [f][1..] == [];
    assert u.Valid();
    FrameAtBoundary([u]);
  }

  lemma {:induction false} FiveByteLength(low: u8)
    requires low < 0x80
    ensures
      var s: seq<u8> := [low + 0x80, 0xFF, 0xFF, 0xFF, 0x0F];
      IsLeb(s) && Value(s) == 0xFFFF_FF80 + low
  {
    var s: seq<u8> := [low + 0x80, 0xFF, 0xFF, 0xFF, 0x0F];
    var t: seq<u8> := [0xFF, 0xFF, 0xFF, 0x0F];
    assert t[1..] == [0xFF, 0xFF, 0x0F] && t[1..][1..] == [0xFF, 0x0F] && t[1..][1..][1..] == [0x0F];
    assert IsLeb(t[1..][1..]) && IsLeb(t[1..]) && IsLeb(t);
    assert Value(t[1..][1..][1..]) == 0xF && Value(t[1..][1..]) == 0x7FF && Value(t[1..]) == 0x3_FFFF
        && Value(t) == 0x1FF_FFFF;
    assert s[1..] == t;
  }

  lemma {:induction false} NothingLeft()
    ensures NextFrame([], 0) == Stop && FrameBytes([]) == [] && StreamBytes([]) == [] && FrameData([]) == []
  {
  }

  // Where the reader stands: inside a temporal unit with frames to come, then units to come.
  ghost predicate At(frames: seq<FrameUnit>, units: seq<TemporalUnit>, left: seq<u8>, rem: u64) {
    && (forall i :: 0 <= i < |frames| ==> frames[i].Valid()) && ValidStream(units)
    && left == FrameBytes(frames) + StreamBytes(units) && rem == |FrameBytes(frames)| <= UINT32_MAX
    && (rem == 0 <==> frames == [])
  }

  lemma {:induction false} Advance(frames: seq<FrameUnit>, units: seq<TemporalUnit>, left: seq<u8>, rem: u64)
    returns (frames': seq<FrameUnit>, units': seq<TemporalUnit>)
    requires At(frames, units, left, rem)
    ensures
      match NextFrame(left, rem)
      case Stop => frames == [] && FramesOf(units) == []
      case Frame(data, rest, remaining) =>
        && |rest| < |left| && At(frames', units', rest, remaining)
        && FrameData(frames) + FramesOf(units) == [data] + (FrameData(frames') + FramesOf(units'))
  {
    frames', units' := frames, units;
    NothingLeft();
    hide IsLeb, Value, FrameAfter, StreamBytes, FrameBytes;
    if frames != [] {
      FrameInUnit(frames, StreamBytes(units));
      frames' := frames[1..];
      assert FrameData(frames) == [frames[0].data] + FrameData(frames');
    } else {
      assert left == StreamBytes(units);
      if units != [] && units[0].Accepted() {
        AdvanceBoundary(units);
        frames', units' := units[0].frames[1..], units[1..];
      } else if units != [] {
        FrameAtBoundary(units);
      }
    }
  }

  lemma {:induction false} AdvanceBoundary(units: seq<TemporalUnit>)
    requires units != [] && ValidStream(units) && units[0].Accepted()
    ensures
      var u, step := units[0], NextFrame(StreamBytes(units), 0);
      && u.frames != [] && step.Frame? && |step.rest| < |StreamBytes(units)|
      && At(u.frames[1..], units[1..], step.rest, step.remaining)
      && FramesOf(units) == [step.data] + (FrameData(u.frames[1..]) + FramesOf(units[1..]))
  {
    hide NextFrame, IsLeb, Value, StreamBytes, FrameBytes, FrameUnit.Valid, FramesOf, TemporalUnit.Accepted,
      FrameData, TemporalUnit.Valid;
    var u := units[0];
    FrameAtBoundary(units);
    OpenUnit(units);
    assert [u.frames[0].data] + (FrameData(u.frames[1..]) + FramesOf(units[1..]))
        == [u.frames[0].data] + FrameData(u.frames[1..]) + FramesOf(units[1..]);
  }

  lemma {:induction false} OpenUnit(units: seq<TemporalUnit>)
    requires units != [] && ValidStream(units) && units[0].Accepted()
    ensures
      var frames := units[0].frames;
      && frames != [] && (forall i :: 0 <= i < |frames[1..]| ==> frames[1..][i].Valid()) && ValidStream(units[1..])
      && FramesOf(units) == [frames[0].data] + FrameData(frames[1..]) + FramesOf(units[1..])
      && |FrameBytes(frames[1..])| < |FrameBytes(frames)| <= UINT32_MAX
      && (|FrameBytes(frames[1..])| == 0 <==> frames[1..] == [])
      && |StreamBytes(units)| > |FrameBytes(frames[1..])| + |StreamBytes(units[1..])|
  {
    var u := units[0];
    assert u.Valid();
    FirstFrame(u.frames);
    assert StreamBytes(units) == u.length + FrameBytes(u.frames) + StreamBytes(units[1..]);
    hide FrameBytes, StreamBytes, IsLeb, Value;
  }

  // Successive reads return the frame units in order, and at every point the counter is
  // the unread part of the current temporal unit.
  method ReadStream(contents: seq<u8>, ghost units: seq<TemporalUnit>) returns (frames: seq<seq<u8>>)
    requires ValidStream(units) && contents == StreamBytes(units)
    ensures frames == FramesOf(units)
  {
    hide NextFrame, FramesOf, FrameData, FrameBytes, StreamBytes;
    var reader := new AnnexBReader(contents);
    frames := [];
    ghost var inUnit: seq<FrameUnit>, toCome := [], units;
    Start(units);
    assert contents[0..] == contents;
    var ok := true;
    while ok
      invariant fresh(reader) && fresh(reader.file) && reader.Valid() && reader.file.contents == contents
          && (ok ==> !reader.file.eof)
      invariant ok ==> At(inUnit, toCome, contents[reader.file.pos..], reader.remTxbSize)
      invariant frames + (if ok then FrameData(inUnit) + FramesOf(toCome) else []) == FramesOf(units)
      decreases ok, if ok then |contents| - reader.file.pos else 0
    {
      ghost var inUnit', toCome' := Advance(inUnit, toCome, contents[reader.file.pos..], reader.remTxbSize);
      NoFrames();
      var data: seq<u8>;
      ok, data := reader.ReadFrameUnit();
      if ok {
        frames := frames + [data];
      }
      inUnit, toCome := inUnit', toCome';
    }
  }

  lemma {:induction false} NoFrames()
    ensures FrameData([]) == []
  {
  }

  lemma {:induction false} Start(units: seq<TemporalUnit>)
    requires ValidStream(units)
    ensures At([], units, StreamBytes(units), 0) && FrameData([]) + FramesOf(units) == FramesOf(units)
  {
  }
}
