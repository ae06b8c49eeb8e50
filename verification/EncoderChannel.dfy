/** The channels of the encoder application: input, reconstruction and packet ports around one encoder each. */
module EncoderChannel {
  import opened Arithmetic
  import opened EncoderInput
  import opened EncoderQueue
  import opened Files
  import opened Ivf
  import opened MachineInts
  import R = ReconFile

  // ----- what the ports keep, on values -----

  // The pictures of an input run as they are sent.
  ghost function AsSent(s: InputState): seq<Picture> {
    if s.finished then AsPictures(s.frames) + [EndOfStream] else AsPictures(s.frames)
  }

  ghost function AsPictures(frames: seq<seq<u8>>): seq<Picture> {
    seq(|frames|, i requires 0 <= i < |frames| => Picture(i, frames[i]))
  }

  // The state of the two output ports and what they wrote.
  datatype Outputs = Outputs(packetPort: ExitCondition, reconPort: ExitCondition, frameCount: nat, ivfCount: u64,
                             bitstream: seq<u8>, recon: seq<u8>)

  ghost predicate OutputsFollow(t: seq<Event>, config: VideoConfig, withRecon: bool, o: Outputs) {
    && o.packetPort == PacketPort(t) && o.reconPort == (if withRecon then ReconPort(t) else ERROR)
    && BlocksLast(t, withRecon)
    && PacketSizes(Packets(t)) && o.frameCount == FramesCounted(Packets(t), 0)
         && o.ivfCount == HeadersCounted(Packets(t), 0)
    && o.bitstream == Stream(config, Packets(t), 0, 0)
    && o.recon == R.Written(Recons(t))
  }

  lemma {:induction false} NothingYet(config: VideoConfig, withRecon: bool)
    ensures OutputsFollow([], config, withRecon, Outputs(NONE, if withRecon then NONE else ERROR, 0, 0, [], []))
    ensures Pictures([]) == AsPictures([])
  {
  }

  lemma {:induction false} SentKeeps(t: seq<Event>, picture: Picture, config: VideoConfig, withRecon: bool, o: Outputs)
    requires OutputsFollow(t, config, withRecon, o)
    ensures OutputsFollow(t + [Sent(picture)], config, withRecon, o)
    ensures Pictures(t + [Sent(picture)]) == Pictures(t) + [picture]
  {
    hide PacketSizes, Stream, FramesCounted, HeadersCounted, R.Written, Pictures, Packets, Recons, PacketPort,
        ReconPort, BlocksLast;
    Extend(t, Sent(picture));
    assert Packets(t) + [] == Packets(t) && Recons(t) + [] == Recons(t);
  }

  // The packet port after a reply that found it open.
  function AfterReply(port: ExitCondition, reply: PacketReply): ExitCondition {
    if reply.NoPacket? then port else if reply.PacketError? then ERROR else if reply.packet.eos then FINISHED else NONE
  }

  lemma {:induction false} AskedKeeps(t: seq<Event>, blocking: bool, reply: PacketReply, config: VideoConfig,
                                      withRecon: bool, o: Outputs)
    requires OutputsFollow(t, config, withRecon, o)
    requires blocking <==> InputEnded(t) && (withRecon ==> o.reconPort != NONE)
    requires reply.GotPacket? ==> |reply.packet.payload| < TWO_32
    ensures
      var o' := o.(packetPort := AfterReply(o.packetPort, reply));
      OutputsFollow(t + [Asked(blocking, reply)], config, withRecon,
        if reply.GotPacket? then
          o'.(frameCount := CountFrame(reply.packet, o.frameCount), ivfCount := NextCount(o.ivfCount),
              bitstream := o.bitstream + Printed(config, reply.packet, o.frameCount, o.ivfCount))
        else o')
  {
    hide PacketSizes, Stream, FramesCounted, HeadersCounted, R.Written, Pictures, Packets, Recons, PacketPort,
        ReconPort, BlocksLast,
      NextCount, Printed, InputEnded;
    Extend(t, Asked(blocking, reply));
    assert Packets(t) + [] == Packets(t) && Recons(t) + [] == Recons(t);
    if reply.GotPacket? {
      StreamSnoc(config, Packets(t), reply.packet, 0, 0);
    }
  }

  lemma {:induction false} FetchedKeeps(t: seq<Event>, reply: ReconReply, config: VideoConfig, o: Outputs)
    requires OutputsFollow(t, config, true, o)
    ensures
      var port := if reply.NoRecon? then o.reconPort else if reply.ReconError? then ERROR else if reply.eos then
          FINISHED else NONE;
      OutputsFollow(t + [Fetched(reply)], config, true,
        o.(reconPort := port,
           recon := if reply.GotRecon? then R.Placed(o.recon, Offset(reply.pts, |reply.data|), reply.data)
               else o.recon))
  {
    hide PacketSizes, Stream, FramesCounted, HeadersCounted, Pictures, Packets, Recons, PacketPort, ReconPort,
        BlocksLast,
      R.Placed, Offset;
    Extend(t, Fetched(reply));
    assert Packets(t) + [] == Packets(t) && Recons(t) + [] == Recons(t);
    if reply.GotRecon? {
      var r := (reply.pts, reply.data);
      assert (Recons(t) + [r])[..|Recons(t)|] == Recons(t);
    }
  }

  // An open reconstruction port means there is one.
  lemma {:induction false} OpenRecon(t: seq<Event>, config: VideoConfig, withRecon: bool, o: Outputs)
    requires OutputsFollow(t, config, withRecon, o) && o.reconPort == NONE
    ensures withRecon
  {
  }

  lemma {:induction false} RunNext(z: Sizes, contents: seq<u8>, fifo: bool, limit: int, n: nat)
    ensures Run(z, contents, fifo, limit, n + 1)
        == InputStep(z, contents, fifo, false, Run(z, contents, fifo, limit, n))
  {
  }

  lemma {:induction false} OutputsBlock(t: seq<Event>, config: VideoConfig, withRecon: bool, o: Outputs)
    requires OutputsFollow(t, config, withRecon, o)
    ensures !withRecon ==> o.reconPort == ERROR
  {
  }

  lemma {:induction false} StillRunning(z: Sizes, contents: seq<u8>, fifo: bool, limit: int, m: nat, n: nat)
    requires !Run(z, contents, fifo, limit, m).finished && Run(z, contents, fifo, limit, n).finished
    ensures m < n
  {
    hide Run;
    if n <= m {
      Stays(z, contents, fifo, limit, n, m);
    }
  }

  lemma {:induction false} MulSign(n: int, size: nat)
    ensures n >= 0 ==> n * size >= 0
  {
  }

  // ----- when a channel is over -----

  predicate Over(input: ExitCondition, output: ExitCondition, recon: ExitCondition, withRecon: bool) {
    || ((recon == FINISHED || !withRecon) && output == FINISHED && input == FINISHED)
    || (recon == ERROR && withRecon) || output == ERROR || input == ERROR
  }

  function Report(input: ExitCondition, output: ExitCondition, recon: ExitCondition, withRecon: bool): ExitCondition {
    if withRecon then Or(Or(recon, output), input) else Or(output, input)
  }

  // The or-ed condition is finished exactly when every enabled port finished; otherwise
  // it has the error bit set.
  lemma {:induction false} ReportsFinished(input: ExitCondition, output: ExitCondition, recon: ExitCondition,
                                           withRecon: bool)
    requires input < 3 && output < 3 && recon < 3 && Over(input, output, recon, withRecon)
    ensures
      var report := Report(input, output, recon, withRecon);
      && (report == FINISHED <==> input == FINISHED && output == FINISHED && (withRecon ==> recon == FINISHED))
      && (report != FINISHED <==> report / 2 == 1)
  {
  }

  lemma {:induction false} SentPictures(frames: seq<seq<u8>>, data: seq<u8>)
    ensures AsPictures(frames + [data]) == AsPictures(frames) + [Picture(|frames|, data)]
  {
  }

  // Pictures carry timestamps 0, 1, 2, ..., there is at most one end of stream, and it is last.
  lemma {:induction false} SentInOrder(s: InputState)
    ensures InOrder(AsSent(s)) && (EndOfStream in AsSent(s) <==> s.finished)
  {
    if s.finished { assert AsSent(s)[|s.frames|] == EndOfStream; }
  }

  class EncChannel {
    const encoder: Encoder
    const format: InputFormat
    const input: InputFile
    const fifo: bool
    const writer: StreamWriter
    const withRecon: bool
    const recon: R.RandomFile
    const returnError: bool

    var framesToBeEncoded: int
    var framesEncoded: nat
    var processedFrameCount: nat
    var processedByteCount: nat
    var stopEncoder: bool
    var headerEos: bool
    var exitCondInput: ExitCondition
    var exitCondOutput: ExitCondition
    var exitCondRecon: ExitCondition
    var exitCond: ExitCondition
    var active: bool

    ghost const limit: int
    ghost var frames: seq<seq<u8>>
    ghost var calls: nat
    ghost var interrupted: bool

    constructor (format: InputFormat, contents: seq<u8>, fifo: bool, frames: int, config: VideoConfig, withRecon: bool,
                 returnError: bool, encoder: Encoder)
      requires encoder.trace == [] && !encoder.inputDone
      ensures this.encoder == encoder && fresh(Repr() - {encoder})
      ensures this.format == format && this.fifo == fifo && this.withRecon == withRecon && limit == frames
      ensures input.contents == contents && writer.config == config && this.returnError == returnError
      ensures Ready() && !active
    {
      this.encoder, this.format, this.fifo, this.withRecon, this.returnError, limit :=
          encoder, format, fifo, withRecon, returnError, frames;
      input := new InputFile(contents);
      writer := new StreamWriter(config);
      recon := new R.RandomFile();
      framesToBeEncoded := frames;
      framesEncoded, processedFrameCount, processedByteCount, stopEncoder, headerEos := 0, 0, 0, false, false;
      exitCondInput, exitCondOutput, exitCondRecon, exitCond, active := NONE, NONE, NONE, NONE, false;
      this.frames, calls, interrupted := [], 0, false;
    }

    ghost function Repr(): set<object> {
      {this, encoder, input, writer, writer.file, recon}
    }

    ghost function Input(): InputState
      reads this, input
    {
      InputState(input.pos, processedByteCount, framesToBeEncoded, frames, exitCondInput == FINISHED)
    }

    ghost function Ports(): Outputs
      reads this, writer, writer.file, recon
    {
      Outputs(exitCondOutput, exitCondRecon, writer.frameCount, writer.ivfCount, writer.file.contents, recon.contents)
    }

    // Before the start: nothing read, sent or written.
    ghost predicate Ready()
      reads this, encoder, input, writer, writer.file, recon
    {
      && encoder.trace == [] && !encoder.inputDone && input.Valid()
      && input.pos == processedByteCount == processedFrameCount == framesEncoded == calls == 0 && !input.eof
      && !stopEncoder && !headerEos && !interrupted && frames == [] && framesToBeEncoded == limit
      && writer.frameCount == 0 && writer.ivfCount == 0 && writer.file.contents == [] && recon.contents == []
    }

    // The input port is where a run of as many calls stands, unless a signal cut it short,
    // and the pictures sent are those of the run.
    ghost predicate InputFollows()
      reads this, encoder, input
    {
      && input.Valid() && (exitCondInput == NONE || exitCondInput == FINISHED)
      && processedFrameCount == framesEncoded == |frames|
      && (exitCondInput == NONE ==>
          (input.eof ==> fifo && input.pos == |input.contents|) && !stopEncoder && !headerEos
           && !interrupted)
      && (!interrupted ==> Input() == Run(format.Measure(), input.contents, fifo, limit, calls))
      && Pictures(encoder.trace) == AsSent(Input()) && encoder.inputDone == (exitCondInput == FINISHED)
    }

    ghost predicate Valid()
      reads this, encoder, input, writer, writer.file, recon
    {
      && InputFollows() && OutputsFollow(encoder.trace, writer.config, withRecon, Ports())
      && exitCondOutput < 3 && exitCondRecon < 3
      && (active <==> !Over(exitCondInput, exitCondOutput, exitCondRecon, withRecon))
      && (!active ==> exitCond == Report(exitCondInput, exitCondOutput, exitCondRecon, withRecon))
    }

    // enc_channel_start
    method Start()
      requires Ready() && !active
      modifies this
      ensures unchanged(this`frames, this`calls, this`interrupted)
      ensures returnError ==> !active
      ensures !returnError ==> active && Valid()
    {
      hide PacketSizes, Stream, FramesCounted, HeadersCounted, R.Written, Packets, Recons, PacketPort, ReconPort,
          BlocksLast, OutputsFollow, Pictures;
      if !returnError {
        exitCond := NONE;
        exitCondOutput := NONE;
        exitCondRecon := if withRecon then NONE else ERROR;
        exitCondInput := NONE;
        active := true;
        NothingYet(writer.config, withRecon);
      }
    }

    // process_input_buffer, at a moment when the interrupt signal has come or not
    method ProcessInput(interrupt: bool)
      requires format.Valid() && InputFollows() && OutputsFollow(encoder.trace, writer.config, withRecon, Ports())
      modifies this`framesToBeEncoded, this`framesEncoded, this`processedFrameCount, this`processedByteCount,
          this`stopEncoder,
               this`headerEos, this`exitCondInput, this`frames, this`calls, this`interrupted, input, encoder
      ensures InputFollows() && OutputsFollow(encoder.trace, writer.config, withRecon, Ports())
      ensures Input() == InputStep(format.Measure(), input.contents, fifo, interrupt, old(Input()))
          && calls == old(calls) + 1
      ensures interrupted ==> old(interrupted) || interrupt
      ensures encoder.packetPatience == old(encoder.packetPatience)
          && encoder.reconPatience == old(encoder.reconPatience)
      ensures encoder.altRefs == old(encoder.altRefs)
    {
      hide OutputsFollow, Pictures, AsPictures, ReadAt, InputFormat.Asked, InputFormat.Measure, InputFormat.Valid,
          Remaining, Run;
      SizesValid(format);
      RunNext(format.Measure(), input.contents, fifo, limit, calls);
      calls := calls + 1;
      if exitCondInput != NONE { return; }
      var remaining := BytesRemaining();
      if remaining != 0 && !stopEncoder {
        var filled, data, ended := ReadInputFrames(input, format, fifo);
        if ended { framesToBeEncoded := framesEncoded; }
        SendPicture(filled, data, interrupt);
      }
    }

    method BytesRemaining() returns (remaining: int)
      ensures remaining == Remaining(format.Measure(), Input())
    {
      var size := format.Budgeted();
      var total := if framesToBeEncoded < 0 then -1 else framesToBeEncoded * size;
      MulSign(framesToBeEncoded, size);
      remaining := if total < 0 then -1 else total - processedByteCount;
    }

    // The sending part of process_input_buffer.
    method SendPicture(filled: nat, data: seq<u8>, interrupt: bool)
      requires exitCondInput == NONE && !stopEncoder && !headerEos && !encoder.inputDone
      requires processedFrameCount == framesEncoded == |frames| && Pictures(encoder.trace) == AsPictures(frames)
      requires OutputsFollow(encoder.trace, writer.config, withRecon, Ports())
      modifies this`framesEncoded, this`processedFrameCount, this`processedByteCount, this`stopEncoder,
               this`headerEos, this`exitCondInput, this`frames, this`interrupted, encoder
      ensures frames == (if filled > 0 then old(frames) + [data] else old(frames))
      ensures processedFrameCount == framesEncoded == |frames| && processedByteCount == old(processedByteCount) + filled
      ensures interrupted == (old(interrupted) || (filled > 0 && interrupt))
      ensures exitCondInput == if |frames| == framesToBeEncoded || (filled > 0 && interrupt) then FINISHED else NONE
      ensures exitCondInput == NONE ==> !stopEncoder && !headerEos
      ensures Pictures(encoder.trace) == if exitCondInput == FINISHED then
          AsPictures(frames) + [EndOfStream] else AsPictures(frames)
      ensures encoder.inputDone == (exitCondInput == FINISHED)
      ensures OutputsFollow(encoder.trace, writer.config, withRecon, Ports())
      ensures encoder.packetPatience == old(encoder.packetPatience)
          && encoder.reconPatience == old(encoder.reconPatience)
      ensures encoder.altRefs == old(encoder.altRefs)
    {
      hide OutputsFollow, Pictures, AsPictures;
      if filled > 0 {
        processedByteCount := processedByteCount + filled;
        processedFrameCount := processedFrameCount + 1;
        framesEncoded := processedFrameCount;
        if interrupt && !stopEncoder { stopEncoder := true; interrupted := true; }
        headerEos := false;
        SentPictures(frames, data);
        Send(Picture(processedFrameCount - 1, data));
        frames := frames + [data];
      }
      if processedFrameCount == framesToBeEncoded || stopEncoder {
        headerEos := true;
        Send(EndOfStream);
      }
      if headerEos { exitCondInput := FINISHED; }
    }

    method Send(picture: Picture)
      requires OutputsFollow(encoder.trace, writer.config, withRecon, Ports())
      modifies encoder
      ensures Pictures(encoder.trace) == old(Pictures(encoder.trace)) + [picture]
      ensures encoder.inputDone == (old(encoder.inputDone) || picture.EndOfStream?)
      ensures OutputsFollow(encoder.trace, writer.config, withRecon, Ports())
      ensures encoder.packetPatience == old(encoder.packetPatience)
          && encoder.reconPatience == old(encoder.reconPatience)
      ensures encoder.altRefs == old(encoder.altRefs)
    {
      hide OutputsFollow, Pictures;
      SentKeeps(encoder.trace, picture, writer.config, withRecon, Ports());
      encoder.Send(picture);
    }

    // process_output_recon_buffer
    method ProcessRecon()
      requires OutputsFollow(encoder.trace, writer.config, withRecon, Ports()) && exitCondRecon < 3
      modifies this`exitCondRecon, encoder, recon
      ensures OutputsFollow(encoder.trace, writer.config, withRecon, Ports()) && exitCondRecon < 3
      ensures Pictures(encoder.trace) == old(Pictures(encoder.trace)) && encoder.inputDone == old(encoder.inputDone)
      ensures encoder.packetPatience == old(encoder.packetPatience) && encoder.altRefs == old(encoder.altRefs)
      ensures encoder.reconPatience <= old(encoder.reconPatience)
      ensures old(exitCondRecon) != NONE ==> exitCondRecon == old(exitCondRecon)
      ensures old(exitCondRecon) == NONE && exitCondRecon == NONE && encoder.inputDone ==>
          encoder.reconPatience < old(encoder.reconPatience)
    {
      hide Pictures, Packets, Recons, PacketPort, BlocksLast, FramesCounted, HeadersCounted, Stream, R.Written,
          R.Placed, Offset, PacketSizes;
      if exitCondRecon != NONE { return; }
      OpenRecon(encoder.trace, writer.config, withRecon, Ports());
      hide ReconPort, OutputsFollow;
      ghost var before, ports := encoder.trace, Ports();
      var reply := encoder.GetRecon();
      Extend(before, Fetched(reply));
      FetchedKeeps(before, reply, writer.config, ports);
      if reply.ReconError? {
        exitCondRecon := ERROR;
        return;
      }
      if !reply.NoRecon? {
        recon.Store(reply.pts, reply.data);
        exitCondRecon := if reply.eos then FINISHED else NONE;
      }
    }

    // process_output_stream_buffer
    method ProcessOutput()
      requires OutputsFollow(encoder.trace, writer.config, withRecon, Ports()) && exitCondOutput < 3
      requires exitCondInput == NONE || exitCondInput == FINISHED
      requires encoder.inputDone == (exitCondInput == FINISHED) && (encoder.inputDone <==> InputEnded(encoder.trace))
      modifies this`exitCondOutput, encoder, writer, writer.file
      ensures OutputsFollow(encoder.trace, writer.config, withRecon, Ports()) && exitCondOutput < 3
      ensures Pictures(encoder.trace) == old(Pictures(encoder.trace)) && encoder.inputDone == old(encoder.inputDone)
      ensures encoder.packetPatience <= old(encoder.packetPatience)
          && encoder.reconPatience == old(encoder.reconPatience)
      ensures old(exitCondOutput) != NONE ==> exitCondOutput == old(exitCondOutput)
      ensures old(exitCondOutput) == NONE && exitCondOutput == NONE && encoder.inputDone ==>
          encoder.packetPatience < old(encoder.packetPatience)
    {
      hide Pictures, Packets, Recons, PacketPort, ReconPort, BlocksLast, FramesCounted, HeadersCounted, Stream,
          R.Written, PacketSizes,
        OutputsFollow, NextCount, Printed;
      if exitCondOutput != NONE { return; }
      OutputsBlock(encoder.trace, writer.config, withRecon, Ports());
      var picSendDone := exitCondInput != NONE && exitCondRecon != NONE;
      var returnValue: ExitCondition := NONE;
      var isAltRef := true;
      while isAltRef
        invariant OutputsFollow(encoder.trace, writer.config, withRecon, Ports().(packetPort := returnValue))
            && returnValue < 3
        invariant Pictures(encoder.trace) == old(Pictures(encoder.trace)) && encoder.inputDone == old(encoder.inputDone)
        invariant encoder.packetPatience <= old(encoder.packetPatience)
            && encoder.reconPatience == old(encoder.reconPatience)
        invariant exitCondOutput == NONE && unchanged(recon)
        invariant !isAltRef && returnValue == NONE && encoder.inputDone ==>
            encoder.packetPatience < old(encoder.packetPatience)
        decreases isAltRef, encoder.altRefs
      {
        isAltRef := false;
        ghost var before, ports := encoder.trace, Ports().(packetPort := returnValue);
        var reply := encoder.GetPacket(picSendDone);
        Extend(before, Asked(picSendDone, reply));
        AskedKeeps(before, picSendDone, reply, writer.config, withRecon, ports);
        if reply.PacketError? {
          exitCondOutput := ERROR;
          return;
        }
        if !reply.NoPacket? {
          isAltRef := reply.packet.altRef;
          writer.WritePacket(reply.packet);
          returnValue := if reply.packet.eos then FINISHED else NONE;
        }
      }
      exitCondOutput := returnValue;
    }

    // The input as given ends: a condition on the format, the length of the input and the limit.
    ghost predicate InputWillEnd()
    {
      var z := format.Measure();
      z.Consistent() && InputEnds(z, |input.contents|, fifo, limit)
    }

    ghost function InputCalls(): int {
      var z := format.Measure();
      if z.asked > 0 then CallsToEnd(z, |input.contents|, fifo, limit) else 0
    }

    // How many calls are left at most: of the input run, until the last packet, until the
    // last reconstruction.
    ghost function Budget(): nat
      reads this, encoder
    {
      (if exitCondInput == NONE && calls <= InputCalls() then InputCalls() - calls else 0)
      + (if exitCondOutput == NONE then encoder.packetPatience + 1 else 0)
      + (if exitCondRecon == NONE then encoder.reconPatience + 1 else 0)
    }

    // The three calls of enc_channel_step.
    method ProcessPorts(interrupt: bool)
      requires format.Valid() && InputFollows() && exitCondOutput < 3 && exitCondRecon < 3
      requires OutputsFollow(encoder.trace, writer.config, withRecon, Ports())
      modifies Repr()
      ensures InputFollows() && exitCondOutput < 3 && exitCondRecon < 3 && active == old(active)
      ensures OutputsFollow(encoder.trace, writer.config, withRecon, Ports())
      ensures interrupted ==> old(interrupted) || interrupt
      ensures calls == old(calls) + 1 && (old(exitCondInput) != NONE ==> exitCondInput == old(exitCondInput))
      ensures encoder.packetPatience <= old(encoder.packetPatience)
          && encoder.reconPatience <= old(encoder.reconPatience)
      ensures old(exitCondOutput) != NONE ==> exitCondOutput == old(exitCondOutput)
      ensures old(exitCondRecon) != NONE ==> exitCondRecon == old(exitCondRecon)
      ensures exitCondInput != NONE && old(exitCondOutput) == NONE && exitCondOutput == NONE ==>
          encoder.packetPatience < old(encoder.packetPatience)
      ensures exitCondInput != NONE && old(exitCondRecon) == NONE && exitCondRecon == NONE ==>
          encoder.reconPatience < old(encoder.reconPatience)
    {
      hide OutputsFollow, Pictures, AsSent, Run, InputFormat.Measure, ReadAt, Remaining, InputFormat.Valid;
      ProcessInput(interrupt);
      SentInOrder(Input());
      ProcessRecon();
      ProcessOutput();
    }

    // enc_channel_step
    method Step(interrupt: bool)
      requires format.Valid() && Valid() && active && InputWillEnd()
      modifies Repr()
      ensures Valid() && (interrupted ==> old(interrupted) || interrupt)
      ensures Budget() < old(Budget())
    {
      hide OutputsFollow, Pictures, AsSent, Run, InputFormat.Measure, InputFormat.Valid, InputEnds, CallsToEnd,
          PicturesToSend;
      EndsAtLimit(format.Measure(), input.contents, fifo, limit);
      if exitCondInput == NONE {
        StillRunning(format.Measure(), input.contents, fifo, limit, calls, InputCalls());
      }
      OutputsBlock(encoder.trace, writer.config, withRecon, Ports());
      ProcessPorts(interrupt);
      Close();
    }

    // Whether the channel is over, and how.
    method Close()
      requires active && InputFollows() && exitCondOutput < 3 && exitCondRecon < 3
      requires OutputsFollow(encoder.trace, writer.config, withRecon, Ports())
      modifies this`active, this`exitCond
      ensures Valid()
    {
      hide OutputsFollow, Pictures, AsSent, Run, InputFormat.Measure;
      if
        || ((exitCondRecon == FINISHED || !withRecon) && exitCondOutput == FINISHED && exitCondInput == FINISHED)
        || (exitCondRecon == ERROR && withRecon) || exitCondOutput == ERROR || exitCondInput == ERROR
      {
        active := false;
        exitCond := if withRecon then Or(Or(exitCondRecon, exitCondOutput), exitCondInput)
            else Or(exitCondOutput, exitCondInput);
      }
    }
  }

  // ----- the encode loop over all channels -----

  ghost predicate Separate(channels: seq<EncChannel>) {
    forall i, j :: 0 <= i < j < |channels| ==> channels[i].Repr() !! channels[j].Repr()
  }

  ghost function Footprint(channels: seq<EncChannel>): set<object> {
    set i, o | 0 <= i < |channels| && o in channels[i].Repr() :: o
  }

  // A channel before the start whose input ends, unless it is not going to start.
  ghost predicate Startable(c: EncChannel)
    reads c.Repr()
  {
    c.Ready() && !c.active && c.format.Valid() && (!c.returnError ==> c.InputWillEnd())
  }

  // A channel of the loop, with at most budget calls to come; budget is zero once it is over.
  ghost predicate Running(c: EncChannel, budget: nat, keepRunning: bool)
    reads c.Repr()
  {
    && (c.active ==> !c.returnError)
    && (!c.returnError ==>
          && c.Valid() && c.format.Valid() && c.InputWillEnd() && c.Budget() <= budget
          && (keepRunning ==> !c.interrupted))
  }

  ghost function Sum(m: seq<nat>): nat {
    if m == [] then 0 else m[0] + Sum(m[1..])
  }

  lemma {:induction false} SumUpdate(m: seq<nat>, i: nat, x: nat)
    requires i < |m|
    ensures Sum(m[i := x]) == Sum(m) - m[i] + x
    decreases |m|
  {
    if i > 0 {
      SumUpdate(m[1..], i - 1, x);
      assert m[i := x][1..] == m[1..][i - 1 := x];
    } else {
      assert m[0 := x][1..] == m[1..];
    }
  }

  method HasActiveChannel(channels: seq<EncChannel>) returns (yes: bool, ghost which: nat)
    ensures yes ==> which < |channels| && channels[which].active
    ensures !yes ==> forall i :: 0 <= i < |channels| ==> !channels[i].active
  {
    for i := 0 to |channels|
      invariant forall j :: 0 <= j < i ==> !channels[j].active
    {
      if channels[i].active { return true, i; }
    }
    return false, 0;
  }

  // A step of one channel, for the loop.
  method StepChannel(c: EncChannel, keepRunning: bool, ghost budget: nat) returns (ghost left: nat)
    requires Running(c, budget, keepRunning) && c.active
    modifies c.Repr()
    ensures Running(c, left, keepRunning) && left < budget
  {
    hide EncChannel.Valid, EncChannel.InputWillEnd, EncChannel.Budget, InputFormat.Valid;
    c.Step(!keepRunning);
    left := c.Budget();
  }

  // enc_channel_step on one of the channels; the others do not change.
  method StepOne(channels: seq<EncChannel>, k: nat, keepRunning: bool, ghost m: seq<nat>)
    returns (ghost m': seq<nat>)
    requires Separate(channels) && |m| == |channels| && k < |channels| && channels[k].active
    requires forall i :: 0 <= i < |channels| ==> Running(channels[i], m[i], keepRunning)
    modifies channels[k].Repr()
    ensures |m'| == |m| && forall i :: 0 <= i < |channels| ==> Running(channels[i], m'[i], keepRunning)
    ensures forall i :: 0 <= i < |channels| && i != k ==> channels[i].active == old(channels[i].active)
    ensures Sum(m') < Sum(m)
  {
    hide Running;
    ghost var left := StepChannel(channels[k], keepRunning, m[k]);
    m' := m[k := left];
    SumUpdate(m, k, left);
  }

  // One pass over the channels.
  method StepActive(channels: seq<EncChannel>, keepRunning: bool, ghost m: seq<nat>, ghost which: nat)
    returns (running: bool, ghost m': seq<nat>)
    requires Separate(channels) && |m| == |channels| && which < |channels| && channels[which].active
    requires forall i :: 0 <= i < |channels| ==> Running(channels[i], m[i], keepRunning)
    modifies Footprint(channels)
    ensures |m'| == |m| && forall i :: 0 <= i < |channels| ==> Running(channels[i], m'[i], running)
    ensures Sum(m') < Sum(m) && (running ==> keepRunning)
  {
    hide Running, Sum;
    running, m' := keepRunning, m;
    for k := 0 to |channels|
      invariant |m'| == |m| && forall i :: 0 <= i < |channels| ==> Running(channels[i], m'[i], running)
      invariant Sum(m') <= Sum(m) && (which < k ==> Sum(m') < Sum(m)) && (running ==> keepRunning)
      invariant k <= which ==> channels[which].active
    {
      if channels[k].active {
        var signal: bool := *;
        if signal {
          Interrupted(channels, m', running);
          running := false;
        }
        m' := StepOne(channels, k, running, m');
      }
    }
  }

  // has_active_channel between two passes, which changes nothing.
  method StillActive(channels: seq<EncChannel>, ghost m: seq<nat>, ghost keepRunning: bool)
    returns (yes: bool, ghost which: nat)
    requires |m| == |channels| && forall i :: 0 <= i < |channels| ==> Running(channels[i], m[i], keepRunning)
    ensures forall i :: 0 <= i < |channels| ==> Running(channels[i], m[i], keepRunning)
    ensures yes ==> which < |channels| && channels[which].active
    ensures !yes ==> forall i :: 0 <= i < |channels| ==> !channels[i].active
  {
    yes, which := HasActiveChannel(channels);
  }

  lemma {:induction false} Interrupted(channels: seq<EncChannel>, m: seq<nat>, running: bool)
    requires |m| == |channels|
    requires forall i :: 0 <= i < |channels| ==> Running(channels[i], m[i], running)
    ensures forall i :: 0 <= i < |channels| ==> Running(channels[i], m[i], false)
  {
    hide EncChannel.Valid, EncChannel.InputWillEnd, EncChannel.Budget, InputFormat.Valid;
  }

  lemma {:induction false} Outcome(channels: seq<EncChannel>, m: seq<nat>, running: bool)
    requires |m| == |channels|
    requires forall i :: 0 <= i < |channels| ==> Running(channels[i], m[i], running)
    ensures forall i :: 0 <= i < |channels| && !channels[i].returnError ==>
      channels[i].Valid() && (running ==> !channels[i].interrupted)
  {
    hide EncChannel.Valid, EncChannel.InputWillEnd, EncChannel.Budget, InputFormat.Valid;
  }

  /** encode: when the input of every channel that starts ends, all channels come to an end. */
  method Encode(channels: seq<EncChannel>) returns (keptRunning: bool)
    requires Separate(channels)
    requires forall i :: 0 <= i < |channels| ==> Startable(channels[i])
    modifies Footprint(channels)
    ensures forall i :: 0 <= i < |channels| ==> !channels[i].active
    ensures forall i :: 0 <= i < |channels| && !channels[i].returnError ==>
      channels[i].Valid() && (keptRunning ==> !channels[i].interrupted)
  {
    hide EncChannel.Valid, Running, Startable, Separate, Sum;
    ghost var m := StartAll(channels);
    keptRunning := true;
    var more: bool;
    ghost var which: nat;
    more, which := StillActive(channels, m, keptRunning);
    while more
      invariant |m| == |channels| && forall i :: 0 <= i < |channels| ==> Running(channels[i], m[i], keptRunning)
      invariant more ==> which < |channels| && channels[which].active
      invariant !more ==> forall i :: 0 <= i < |channels| ==> !channels[i].active
      decreases Sum(m)
    {
      keptRunning, m := StepActive(channels, keptRunning, m, which);
      more, which := StillActive(channels, m, keptRunning);
    }
    Outcome(channels, m, keptRunning);
  }

  method StartAll(channels: seq<EncChannel>) returns (ghost m: seq<nat>)
    requires Separate(channels)
    requires forall i :: 0 <= i < |channels| ==> Startable(channels[i])
    modifies Footprint(channels)
    ensures |m| == |channels| && forall i :: 0 <= i < |channels| ==> Running(channels[i], m[i], true)
  {
    hide Running, Startable;
    m := [];
    for k := 0 to |channels|
      invariant |m| == k && forall i :: 0 <= i < k ==> Running(channels[i], m[i], true)
      invariant forall i :: k <= i < |channels| ==> Startable(channels[i])
    {
      ghost var budget := StartChannel(channels[k]);
      m := m + [budget];
    }
  }

  method StartChannel(c: EncChannel) returns (ghost budget: nat)
    requires Startable(c)
    modifies c.Repr()
    ensures Running(c, budget, true)
  {
    hide EncChannel.Valid, EncChannel.InputWillEnd, EncChannel.Budget, InputFormat.Valid;
    c.Start();
    budget := c.Budget();
  }
}
