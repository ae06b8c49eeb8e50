/** The IVF container: the encoder's printer and the decoder's reader. */
module Ivf {
  import Memory
  import opened Files
  import opened MachineInts
  import opened Wrappers

  const MAX_FRAME := 256 * 1024 * 1024
  const TWO_32 := 0x1_0000_0000
  const TWO_63 := 0x8000_0000_0000_0000
  const TWO_64 := 0x1_0000_0000_0000_0000

  // "DKIF" and "AV01", read as little-endian words.
  const SIGNATURE: seq<u8> := [68, 75, 73, 70]
  const AV1_FOURCC: u32 := 0x31305641

  function PutLe16(x: u32): (s: seq<u8>)
    ensures |s| == 2
  {
    [x % 0x100, x / 0x100 % 0x100]
  }

  function GetLe16(b0: u8, b1: u8): u32 { b0 + 0x100 * b1 }

  function GetLe32(s: seq<u8>, at: nat): u32
    requires at + 4 <= |s|
  {
    LittleEndian(s[at], s[at + 1], s[at + 2], s[at + 3])
  }

  // Reinterpretations of unsigned words as C ints.
  function ToInt32(x: u32): (v: int)
    ensures -0x8000_0000 <= v < 0x8000_0000 && (v == x || v == x - 0x1_0000_0000)
  {
    if x < 0x8000_0000 then x else x - TWO_32
  }

  function ToInt64(x: u64): (v: int)
    ensures -0x8000_0000_0000_0000 <= v < 0x8000_0000_0000_0000 && (v == x || v == x - 0x1_0000_0000_0000_0000)
  {
    if x < TWO_63 then x else x - TWO_64
  }

  // ----- the encoder's side -----

  // The fields of EbConfig the stream header is made of.
  datatype VideoConfig = VideoConfig(width: u32, height: u32, rateNumerator: u32, rateDenominator: u32, frameRate: u32)
  {
    function Rate(): u32 {
      if rateDenominator != 0 && rateNumerator != 0 then rateNumerator else frameRate / 0x1_0000 * 1000
    }

    function Scale(): u32 { if rateDenominator != 0 && rateNumerator != 0 then rateDenominator else 1000 }
  }

  function StreamHeader(config: VideoConfig): (s: seq<u8>)
    ensures |s| == 32
  {
    SIGNATURE + PutLe16(0) + PutLe16(32) + WordBytes(AV1_FOURCC) +
    PutLe16(config.width) + PutLe16(config.height) +
    WordBytes(config.Rate()) + WordBytes(config.Scale()) + WordBytes(0) + WordBytes(0)
  }

  function FrameHeader(size: u32, count: u64): (s: seq<u8>)
    ensures |s| == 12
  {
    WordBytes(size) + WordBytes(count % TWO_32) + WordBytes(count / TWO_32)
  }

  // ivf_count++ on 64 bits
  function NextCount(count: u64): (next: u64)
    ensures next == if count == 0xFFFF_FFFF_FFFF_FFFF then 0 else count + 1
  {
    (count + 1) % TWO_64
  }

  // An output packet of the encoder.
  datatype Packet = Packet(payload: seq<u8>, altRef: bool, eos: bool)

  ghost predicate PacketSizes(packets: seq<Packet>) {
    forall p :: p in packets ==> |p.payload| < TWO_32
  }

  // The frame counter after a packet: alt-refs are not counted.
  function CountFrame(p: Packet, frameCount: nat): nat { if p.altRef then frameCount else frameCount + 1 }

  // The bytes written for one packet.
  function Printed(config: VideoConfig, p: Packet, frameCount: nat, ivfCount: u64): seq<u8>
    requires |p.payload| < TWO_32
  {
    (if CountFrame(p, frameCount) == 1 && !p.altRef then StreamHeader(config) else []) +
    FrameHeader(|p.payload|, ivfCount) + p.payload
  }

  // The bytes written for a list of packets when frameCount frames were counted and
  // ivfCount frame headers written before.
  ghost function Stream(config: VideoConfig, packets: seq<Packet>, frameCount: nat, ivfCount: u64): seq<u8>
    requires PacketSizes(packets)
    decreases |packets|
  {
    if packets == [] then []
    else
      var p := packets[0];
      Printed(config, p, frameCount, ivfCount)
          + Stream(config, packets[1..], CountFrame(p, frameCount), NextCount(ivfCount))
  }

  // The counters after a list of packets.
  ghost function FramesCounted(packets: seq<Packet>, frameCount: nat): nat {
    if packets == [] then frameCount else FramesCounted(packets[1..], CountFrame(packets[0], frameCount))
  }

  ghost function HeadersCounted(packets: seq<Packet>, ivfCount: u64): u64 {
    if packets == [] then ivfCount else HeadersCounted(packets[1..], NextCount(ivfCount))
  }

  // Writing one packet more.
  lemma {:induction false} StreamSnoc(config: VideoConfig, packets: seq<Packet>, p: Packet, frameCount: nat,
                                      ivfCount: u64)
    requires PacketSizes(packets) && |p.payload| < TWO_32
    ensures PacketSizes(packets + [p])
    ensures FramesCounted(packets + [p], frameCount) == CountFrame(p, FramesCounted(packets, frameCount))
    ensures HeadersCounted(packets + [p], ivfCount) == NextCount(HeadersCounted(packets, ivfCount))
    ensures Stream(config, packets + [p], frameCount, ivfCount) ==
            Stream(config, packets, frameCount, ivfCount) +
            Printed(config, p, FramesCounted(packets, frameCount), HeadersCounted(packets, ivfCount))
    decreases |packets|
  {
    hide Printed, NextCount;
    if packets == [] {
      assert [p][1..] == [];
      assert [] + [p] == [p];
    } else {
      var q := packets[0];
      StreamSnoc(config, packets[1..], p, CountFrame(q, frameCount), NextCount(ivfCount));
      assert (packets + [p])[1..] == packets[1..] + [p];
    }
  }

  // The part of EbConfig that process_output_stream_buffer updates when it writes.
  class StreamWriter {
    const config: VideoConfig
    const file: OutputFile
    var frameCount: nat
    var ivfCount: u64
    var byteCount: nat

    constructor (config: VideoConfig)
      ensures frameCount == 0 && ivfCount == 0 && byteCount == 0 && this.config == config
      ensures fresh(file) && file.contents == []
    {
      this.config := config;
      file := new OutputFile();
      frameCount, ivfCount, byteCount := 0, 0, 0;
    }

    // write_ivf_frame_header
    method WriteFrameHeader(size: u32)
      modifies this`ivfCount, file
      ensures ivfCount == NextCount(old(ivfCount))
      ensures file.contents == old(file.contents) + FrameHeader(size, old(ivfCount))
    {
      var header := WordBytes(size) + WordBytes(ivfCount % TWO_32) + WordBytes(ivfCount / TWO_32);
      ivfCount := NextCount(ivfCount);
      file.Write(header);
    }

    // The writing part of process_output_stream_buffer.
    method WritePacket(p: Packet)
      requires |p.payload| < TWO_32
      modifies this, file
      ensures frameCount == CountFrame(p, old(frameCount)) && ivfCount == NextCount(old(ivfCount))
      ensures byteCount == old(byteCount) + |p.payload|
      ensures file.contents == old(file.contents) + Printed(config, p, old(frameCount), old(ivfCount))
    {
      hide StreamHeader, FrameHeader, NextCount;
      if !p.altRef { frameCount := frameCount + 1; }
      if frameCount == 1 && !p.altRef {
        file.Write(StreamHeader(config));
      }
      WriteFrameHeader(|p.payload|);
      file.Write(p.payload);
      byteCount := byteCount + |p.payload|;
    }
  }

  // ----- the decoder's side -----

  // What file_is_ivf stores in CliInput.
  datatype IvfInfo = IvfInfo(fourcc: u32, width: u32, height: u32, numerator: int, denominator: int)

  predicate FrameRateValid(num: int, den: int) {
    0 < den < 1_000_000_000 && 0 < num < 1000
  }

  // fix_framerate
  function FixFrameRate(num: int, den: int): (int, int) {
    if FrameRateValid(num, den) then (num, den) else (30, 1)
  }

  ghost predicate IsIvf(contents: seq<u8>) {
    |contents| >= 32 && contents[..4] == SIGNATURE
  }

  function HeaderInfo(header: seq<u8>): IvfInfo
    requires |header| == 32
  {
    var rate := FixFrameRate(ToInt32(GetLe32(header, 16)), ToInt32(GetLe32(header, 20)));
    IvfInfo(GetLe32(header, 8), GetLe16(header[12], header[13]), GetLe16(header[14], header[15]), rate.0, rate.1)
  }

  // file_is_ivf
  method FileIsIvf(file: InputFile) returns (info: Option<IvfInfo>)
    requires file.Valid() && file.pos == 0 && !file.eof
    modifies file
    ensures file.Valid() && info.Some? == IsIvf(file.contents)
    ensures info.Some? ==> !file.eof && file.pos == 32 && info.value == HeaderInfo(file.contents[..32])
    ensures info.None? ==> file.pos == 0 && !file.eof
  {
    var rawHeader := file.Read(32);
    info := None;
    if |rawHeader| == 32 {
      assert rawHeader[..4] == file.contents[..4];
      if rawHeader[..4] == SIGNATURE {
        info := Some(HeaderInfo(rawHeader));
      }
    }
    if info.None? {
      file.Rewind();
    }
  }

  // The timestamp of a frame header, as the reader assembles it.
  function HeaderPts(s: seq<u8>): int
    requires |s| >= 12
  {
    ToInt64(GetLe32(s, 4) + GetLe32(s, 8) * TWO_32)
  }

  datatype Frame = Frame(payload: seq<u8>, pts: int)

  // The frames of a file from a position on, as a reference reader would list them.
  ghost function ParseFrames(s: seq<u8>): seq<Frame>
    decreases |s|
  {
    if |s| < 12 then []
    else
      var declared := GetLe32(s, 0);
      var size := if declared > MAX_FRAME then 0 else declared;
      if |s| < 12 + size then []
      else [Frame(s[12..12 + size], HeaderPts(s))] + ParseFrames(s[12 + size..])
  }

  lemma {:induction false} HeaderOfPrefix(s: seq<u8>)
    requires |s| >= 12
    ensures GetLe32(s[..12], 0) == GetLe32(s, 0) && HeaderPts(s[..12]) == HeaderPts(s)
  {
  }

  // The growing read buffer of the decoder application.
  class ReadBuffer {
    var buffer: array<u8>
    var bytesRead: nat

    constructor ()
      ensures fresh(buffer) && bytesRead == 0 && buffer.Length == 0
    {
      buffer := new u8[0];
      bytesRead := 0;
    }

    // read_ivf_frame
    method ReadIvfFrame(file: InputFile) returns (ok: bool, pts: int)
      requires file.Valid() && !file.eof
      modifies this, buffer, file
      ensures file.Valid() && (buffer == old(buffer) || fresh(buffer))
      ensures
        var frames := ParseFrames(file.contents[old(file.pos)..]);
        && ok == (frames != [])
        && (ok ==>
          && !file.eof && file.pos > old(file.pos)
          && bytesRead <= buffer.Length && frames[0] == Frame(buffer[..bytesRead], pts)
          && frames[1..] == ParseFrames(file.contents[file.pos..]))
    {
      hide GetLe32, HeaderPts;
      ghost var s := file.contents[file.pos..];
      var frameSize: nat := 0;
      pts := 0;
      var rawHeader := file.Read(12);
      if |rawHeader| == 12 {
        assert rawHeader == s[..12];
        HeaderOfPrefix(s);
        frameSize := GetLe32(rawHeader, 0);
        if frameSize > MAX_FRAME {
          frameSize := 0;
        }
        if frameSize > buffer.Length {
          buffer := new u8[2 * frameSize];
        }
        pts := HeaderPts(rawHeader);
      }
      if !file.eof {
        var data := file.Read(frameSize);
        if |data| != frameSize {
          return false, pts;
        }
        assert data == s[12..12 + frameSize] && file.contents[file.pos..] == s[12 + frameSize..];
        Memory.Copy(buffer, 0, data);
        bytesRead := frameSize;
        return true, pts;
      }
      return false, pts;
    }
  }

  // The decode loop over an IVF file, recording what it reads.
  method ReadAll(file: InputFile) returns (info: Option<IvfInfo>, frames: seq<Frame>)
    requires file.Valid() && file.pos == 0 && !file.eof
    modifies file
    ensures info.Some? == IsIvf(file.contents)
    ensures info.Some? ==> info.value == HeaderInfo(file.contents[..32]) && frames == ParseFrames(file.contents[32..])
    ensures info.None? ==> frames == []
  {
    hide ParseFrames, HeaderInfo, IsIvf;
    info := FileIsIvf(file);
    frames := [];
    if info.None? { return; }
    var input := new ReadBuffer();
    var ok := true;
    while ok
      invariant file.Valid() && (ok ==> !file.eof) && fresh(input) && fresh(input.buffer)
      invariant frames + (if ok then ParseFrames(file.contents[file.pos..]) else []) == ParseFrames(file.contents[32..])
      decreases ok, |file.contents| - file.pos
    {
      var pts: int;
      ok, pts := input.ReadIvfFrame(file);
      if ok {
        frames := frames + [Frame(input.buffer[..input.bytesRead], pts)];
      }
    }
  }

  // ----- round trip -----

  ghost function Payloads(packets: seq<Packet>): (s: seq<seq<u8>>)
    ensures |s| == |packets|
  {
    seq(|packets|, i requires 0 <= i < |packets| => packets[i].payload)
  }

  ghost function FramePayloads(frames: seq<Frame>): (s: seq<seq<u8>>)
    ensures |s| == |frames|
  {
    seq(|frames|, i requires 0 <= i < |frames| => frames[i].payload)
  }

  // The frames the reader should see: the payloads in order, stamped first, first + 1, ...
  ghost function Numbered(packets: seq<Packet>, first: nat): (s: seq<Frame>)
    ensures |s| == |packets|
  {
    seq(|packets|, i requires 0 <= i < |packets| => Frame(packets[i].payload, first + i))
  }

  ghost predicate Readable(packets: seq<Packet>) {
    forall p :: p in packets ==> |p.payload| <= 0x1000_0000
  }

  lemma {:induction false} WordAt(s: seq<u8>, at: nat, w: u32)
    requires at + 4 <= |s| && s[at..at + 4] == WordBytes(w)
    ensures GetLe32(s, at) == w
  {
    WordRoundTrip(w);
    hide WordBytes, LittleEndian;
    var b := WordBytes(w);
    assert s[at] == b[0] && s[at + 1] == b[1] && s[at + 2] == b[2] && s[at + 3] == b[3];
  }

  lemma {:induction false} FrameHeaderRead(size: u32, count: u64, rest: seq<u8>)
    requires count < TWO_63
    ensures
      var s := FrameHeader(size, count) + rest;
      GetLe32(s, 0) == size && HeaderPts(s) == count && s[12..] == rest
  {
    hide WordBytes, GetLe32;
    var s := FrameHeader(size, count) + rest;
    assert s[0..4] == WordBytes(size) && s[4..8] == WordBytes(count % TWO_32) && s[8..12] == WordBytes(count / TWO_32);
    WordAt(s, 0, size);
    WordAt(s, 4, count % TWO_32);
    WordAt(s, 8, count / TWO_32);
  }

  // Frame headers and payloads, and nothing else.
  ghost function FramesOnly(packets: seq<Packet>, ivfCount: u64): seq<u8>
    requires PacketSizes(packets)
    decreases |packets|
  {
    if packets == [] then []
    else
      FrameHeader(|packets[0].payload|, ivfCount) + packets[0].payload + FramesOnly(packets[1..], NextCount(ivfCount))
  }

  // Once a frame is counted, no stream header is written again.
  lemma {:induction false} NoSecondHeader(config: VideoConfig, packets: seq<Packet>, frameCount: nat, ivfCount: u64)
    requires PacketSizes(packets) && frameCount >= 1
    ensures Stream(config, packets, frameCount, ivfCount) == FramesOnly(packets, ivfCount)
    decreases |packets|
  {
    hide StreamHeader, FrameHeader, NextCount;
    if packets != [] {
      var p := packets[0];
      NoSecondHeader(config, packets[1..], CountFrame(p, frameCount), NextCount(ivfCount));
    }
  }

  lemma {:induction false} FramesRoundTrip(packets: seq<Packet>, ivfCount: u64)
    requires Readable(packets) && ivfCount + |packets| < TWO_63
    ensures PacketSizes(packets) && ParseFrames(FramesOnly(packets, ivfCount)) == Numbered(packets, ivfCount)
    decreases |packets|
  {
    hide ParseFrames, FrameHeader;
    if packets == [] {
      NothingToParse();
    } else {
      var p := packets[0];
      FramesRoundTrip(packets[1..], ivfCount + 1);
      OneFrame(p.payload, ivfCount, FramesOnly(packets[1..], ivfCount + 1));
      assert Numbered(packets, ivfCount) == [Frame(p.payload, ivfCount)] + Numbered(packets[1..], ivfCount + 1);
    }
  }

  lemma {:induction false} NothingToParse()
    ensures ParseFrames([]) == []
  {
  }

  lemma {:induction false} OneFrame(payload: seq<u8>, count: u64, rest: seq<u8>)
    requires |payload| <= MAX_FRAME && count < TWO_63
    ensures ParseFrames(FrameHeader(|payload|, count) + payload + rest) == [Frame(payload, count)] + ParseFrames(rest)
  {
    var s := FrameHeader(|payload|, count) + payload + rest;
    assert s == FrameHeader(|payload|, count) + (payload + rest);
    FrameHeaderRead(|payload|, count, payload + rest);
    hide FrameHeader, GetLe32, HeaderPts;
    assert s[12..12 + |payload|] == payload && s[12 + |payload|..] == rest;
  }

  // The reader never returns a payload above its limit.
  lemma {:induction false} ParsedWithinLimit(s: seq<u8>)
    ensures forall f :: f in ParseFrames(s) ==> |f.payload| <= MAX_FRAME
    decreases |s|
  {
    if |s| >= 12 {
      var declared := GetLe32(s, 0);
      var size := if declared > MAX_FRAME then 0 else declared;
      if |s| >= 12 + size {
        ParsedWithinLimit(s[12 + size..]);
      }
    }
  }

  // When the first packet is not an alt-ref the stream header comes first and only there.
  lemma {:induction false} HeaderFirst(config: VideoConfig, packets: seq<Packet>)
    requires PacketSizes(packets) && packets != [] && !packets[0].altRef
    ensures
      var file := Stream(config, packets, 0, 0);
      file == StreamHeader(config) + FramesOnly(packets, 0) && file[..32] == StreamHeader(config)
          && file[32..] == FramesOnly(packets, 0)
  {
    hide StreamHeader, FrameHeader;
    NoSecondHeader(config, packets[1..], 1, 1);
  }

  // When it is an alt-ref the file starts with that packet's frame header instead.
  lemma {:induction false} FrameHeaderFirst(config: VideoConfig, packets: seq<Packet>)
    requires PacketSizes(packets) && packets != [] && packets[0].altRef
    ensures
      var file := Stream(config, packets, 0, 0);
      |file| >= 4 && file[..4] == WordBytes(|packets[0].payload|)
  {
    hide StreamHeader, WordBytes;
    var p := packets[0];
    assert Stream(config, packets, 0, 0) == FrameHeader(|p.payload|, 0) + p.payload
        + Stream(config, packets[1..], 0, 1);
  }

  // The first four bytes of an IVF file, read as a frame size, are above the reader's limit.
  lemma {:induction false} SignatureIsTooLarge(size: u32)
    requires WordBytes(size) == SIGNATURE
    ensures size > MAX_FRAME
  {
    WordRoundTrip(size);
  }

  // The decoder reads back the encoder's payloads exactly when the first packet is not an
  // alt-ref and every payload is within the reader's limit.
  lemma {:induction false} IvfRoundTrip(config: VideoConfig, packets: seq<Packet>)
    requires PacketSizes(packets) && packets != [] && |packets| < TWO_63
    ensures
      var file := Stream(config, packets, 0, 0);
      (IsIvf(file) && FramePayloads(ParseFrames(file[32..])) == Payloads(packets))
      <==> !packets[0].altRef && Readable(packets)
  {
    hide ParseFrames, Stream, StreamHeader, FramesOnly, WordBytes, Numbered;
    var file := Stream(config, packets, 0, 0);
    if !packets[0].altRef && Readable(packets) {
      ReadBack(config, packets);
    } else if IsIvf(file) && FramePayloads(ParseFrames(file[32..])) == Payloads(packets) {
      ParsedWithinLimit(file[32..]);
      SamePayloadsReadable(ParseFrames(file[32..]), packets);
      FrameHeaderFirst(config, packets);
      SignatureIsTooLarge(|packets[0].payload|);
      assert false;
    }
  }

  lemma {:induction false} SamePayloadsReadable(frames: seq<Frame>, packets: seq<Packet>)
    requires FramePayloads(frames) == Payloads(packets) && forall f :: f in frames ==> |f.payload| <= MAX_FRAME
    ensures Readable(packets)
  {
    forall p | p in packets
      ensures |p.payload| <= MAX_FRAME
    {
      var i :| 0 <= i < |packets| && packets[i] == p;
      assert FramePayloads(frames)[i] == Payloads(packets)[i];
      assert frames[i] in frames;
    }
  }

  // And then the timestamps are 0, 1, 2, ...
  lemma {:induction false} ReadBack(config: VideoConfig, packets: seq<Packet>)
    requires packets != [] && |packets| < TWO_63 && !packets[0].altRef && Readable(packets)
    ensures PacketSizes(packets)
    ensures
      var file := Stream(config, packets, 0, 0);
      && IsIvf(file) && file[..32] == StreamHeader(config)
      && ParseFrames(file[32..]) == Numbered(packets, 0)
      && FramePayloads(ParseFrames(file[32..])) == Payloads(packets)
  {
    HeaderFirst(config, packets);
    FramesRoundTrip(packets, 0);
    SignatureFirst(config);
    NumberedPayloads(packets, 0);
    hide ParseFrames, Stream, StreamHeader, FramesOnly, Numbered;
    var file := Stream(config, packets, 0, 0);
    assert file[..4] == file[..32][..4];
  }

  lemma {:induction false} SignatureFirst(config: VideoConfig)
    ensures StreamHeader(config)[..4] == SIGNATURE
  {
    hide PutLe16, WordBytes;
  }

  lemma {:induction false} NumberedPayloads(packets: seq<Packet>, first: nat)
    ensures FramePayloads(Numbered(packets, first)) == Payloads(packets)
  {
  }

  lemma {:induction false} Le16RoundTrip(x: u32)
    ensures GetLe16(PutLe16(x)[0], PutLe16(x)[1]) == x % 0x1_0000
  {
  }

  // Both headers byte by byte: signature, version, length, codec, sizes, and the frame rate as a rational.
  lemma {:induction false} HeaderBytes(config: VideoConfig)
    ensures
      var h := StreamHeader(config);
      && h[..12] == [68, 75, 73, 70, 0, 0, 32, 0, 65, 86, 48, 49]
      && h[12..16] == [config.width % 0x100, config.width / 0x100 % 0x100,
                       config.height % 0x100, config.height / 0x100 % 0x100]
      && h[24..] == [0, 0, 0, 0, 0, 0, 0, 0]
  {
    hide VideoConfig.Rate, VideoConfig.Scale;
  }

  lemma {:induction false} RateBytes(config: VideoConfig)
    ensures
      var h := StreamHeader(config);
      var rate, scale := LittleEndian(h[16], h[17], h[18], h[19]), LittleEndian(h[20], h[21], h[22], h[23]);
      if config.rateDenominator != 0 && config.rateNumerator != 0 then
        rate == config.rateNumerator && scale == config.rateDenominator
      else rate == config.frameRate / 0x1_0000 * 1000 && scale == 1000
  {
    WordRoundTrip(config.Rate());
    WordRoundTrip(config.Scale());
    hide WordBytes, LittleEndian;
  }

  lemma {:induction false} FrameHeaderBytes(size: u32, count: u64)
    ensures
      var h := FrameHeader(size, count);
      && LittleEndian(h[0], h[1], h[2], h[3]) == size
      && LittleEndian(h[4], h[5], h[6], h[7]) + 0x1_0000_0000 * LittleEndian(h[8], h[9], h[10], h[11]) == count
  {
    WordRoundTrip(size);
    WordRoundTrip(count % 0x1_0000_0000);
    WordRoundTrip(count / 0x1_0000_0000);
    hide WordBytes, LittleEndian;
  }

  lemma {:induction false} StoredHeader(config: VideoConfig)
    ensures
      var info := HeaderInfo(StreamHeader(config));
      && info.fourcc == AV1_FOURCC && info.width == config.width % 0x1_0000 && info.height == config.height % 0x1_0000
      && (info.numerator, info.denominator) == FixFrameRate(ToInt32(config.Rate()), ToInt32(config.Scale()))
  {
    var h := StreamHeader(config);
    hide WordBytes, GetLe32, GetLe16, PutLe16, VideoConfig.Rate, VideoConfig.Scale, FixFrameRate, ToInt32;
    assert h[8..12] == WordBytes(AV1_FOURCC) && h[12..14] == PutLe16(config.width)
        && h[14..16] == PutLe16(config.height);
    assert h[16..20] == WordBytes(config.Rate()) && h[20..24] == WordBytes(config.Scale());
    WordAt(h, 8, AV1_FOURCC);
    WordAt(h, 16, config.Rate());
    WordAt(h, 20, config.Scale());
    assert h[12] == h[12..14][0] && h[13] == h[12..14][1] && h[14] == h[14..16][0] && h[15] == h[14..16][1];
    Le16RoundTrip(config.width);
    Le16RoundTrip(config.height);
    hide StreamHeader;
  }

  // Words from 2^31 on read as negative numbers do not pass the check of the frame rate.
  lemma {:induction false} FixedRate(num: u32, den: u32)
    ensures
      FixFrameRate(ToInt32(num), ToInt32(den))
      == if 0 < num < 1000 && 0 < den < 1_000_000_000 then (num, den) else (30, 1)
  {
  }

  // What the reader makes of the stream header: sizes modulo 2^16, and the frame rate, given as a rational or as
  // a number of 2^16ths, only when it is within the reader's bounds.
  lemma {:induction false} HeaderRoundTrip(config: VideoConfig)
    ensures
      var info := HeaderInfo(StreamHeader(config));
      var given := config.rateDenominator != 0 && config.rateNumerator != 0;
      var rate := if given then config.rateNumerator else config.frameRate / 0x1_0000 * 1000;
      var scale := if given then config.rateDenominator else 1000;
      && info.fourcc == 0x31305641
      && info.width == config.width % 0x1_0000 && info.height == config.height % 0x1_0000
      && (info.width == config.width <==> config.width < 0x1_0000)
      && (info.height == config.height <==> config.height < 0x1_0000)
      && (0 < rate < 1000 && 0 < scale < 1_000_000_000 ==> info.numerator == rate && info.denominator == scale)
      && (!(0 < rate < 1000 && 0 < scale < 1_000_000_000) ==> info.numerator == 30 && info.denominator == 1)
  {
    StoredHeader(config);
    FixedRate(config.Rate(), config.Scale());
    hide StreamHeader, HeaderInfo;
  }

  // Without an explicit rational the encoder writes a multiple of 1000 over 1000, which the
  // reader always replaces by 30/1.
  lemma {:induction false} DefaultFrameRateIsLost(config: VideoConfig)
    requires config.rateDenominator == 0 || config.rateNumerator == 0
    ensures HeaderInfo(StreamHeader(config)).numerator == 30 && HeaderInfo(StreamHeader(config)).denominator == 1
  {
    HeaderRoundTrip(config);
  }
}
