/** What a channel that is over has sent and written. */
module ChannelOutcome {
  import opened EncoderChannel
  import opened EncoderInput
  import opened EncoderQueue
  import opened Ivf
  import R = ReconFile

  // In every state of a run: timestamps count up from zero, nothing follows the end of
  // stream, and the packet call blocked exactly when everything was in.
  lemma {:induction false} Orderly(c: EncChannel)
    requires c.Valid()
    ensures InOrder(Pictures(c.encoder.trace)) && BlocksLast(c.encoder.trace, c.withRecon)
    ensures InputEnded(c.encoder.trace) <==> c.exitCondInput == FINISHED
  {
    hide Run, Stream, Packets, Pictures, AsSent;
    SentInOrder(c.Input());
  }

  // A channel that is over reports finished exactly when the end of stream went out and the
  // last packet, and the last reconstruction if there are any, came back.
  lemma {:induction false} Finished(c: EncChannel)
    requires c.Valid() && !c.active
    ensures c.exitCond == FINISHED <==>
      && InputEnded(c.encoder.trace) && PacketPort(c.encoder.trace) == FINISHED
      && (c.withRecon ==> ReconPort(c.encoder.trace) == FINISHED)
  {
    Orderly(c);
    ReportsFinished(c.exitCondInput, c.exitCondOutput, c.exitCondRecon, c.withRecon);
    hide Run, Stream, Packets, Pictures, AsSent, PacketPort, ReconPort, Report, BlocksLast;
  }

  // From a regular file a finished, uninterrupted channel has sent exactly the pictures
  // asked for, going round the file, and then the end of stream.
  lemma {:induction false} SentFromFile(c: EncChannel)
    requires c.Valid() && c.format.Valid() && c.exitCondInput == FINISHED && !c.fifo && !c.interrupted
    ensures Pictures(c.encoder.trace) == AsPictures(c.frames) + [EndOfStream] && |c.frames| == c.limit
    ensures
      var z := c.format.Measure();
      z.asked == z.expected && z.asked <= |c.input.contents| ==>
        && z.asked > 0 && PictureCount(z.asked, |c.input.contents|) > 0
        && forall k :: 0 <= k < |c.frames| ==>
             c.frames[k] == PictureAt(z, c.input.contents, Index(k, PictureCount(z.asked, |c.input.contents|)))
  {
    hide Run, Stream, Packets, Pictures, InputFormat.Measure, InputFormat.Valid, PictureAt, PictureCount, Index,
        OutputsFollow;
    var z := c.format.Measure();
    SizesValid(c.format);
    RunBounds(z, c.input.contents, c.limit, c.calls);
    if z.asked == z.expected && z.asked <= |c.input.contents| {
      LoopsOver(z, c.input.contents, c.limit, c.calls);
    }
  }

  // From a pipe it has sent the pictures the pipe holds, up to the limit if one is given; where
  // the sizes agree these are its whole pictures, in order.
  lemma {:induction false} SentFromPipe(c: EncChannel)
    requires c.Valid() && c.format.Valid() && c.exitCondInput == FINISHED && c.fifo && !c.interrupted
    ensures Pictures(c.encoder.trace) == AsPictures(c.frames) + [EndOfStream]
    ensures
      var z, n := c.format.Measure(), |c.input.contents|;
      && z.asked > 0 && |c.frames| == PicturesToSend(z, n, true, c.limit)
      && (forall k :: 0 <= k < |c.frames| ==> c.frames[k] == PipePicture(z, c.input.contents, k))
      && (z.asked == z.expected ==>
            && |c.frames| == (if c.limit < 0 || PictureCount(z.asked, n) < c.limit then
                 PictureCount(z.asked, n) else c.limit)
            && |c.frames| <= PictureCount(z.asked, n)
            && forall k :: 0 <= k < |c.frames| ==> c.frames[k] == PictureAt(z, c.input.contents, k))
  {
    hide Run, Stream, Packets, Pictures, InputFormat.Measure, InputFormat.Valid, PictureAt, PictureCount, OutputsFollow,
      SpentAfter, BudgetedCalls, PicturesToSend, CallsToEnd, PipePicture;
    SizesValid(c.format);
    var z, n := c.format.Measure(), |c.input.contents|;
    NothingToEnd(z, c.input.contents, true, c.limit, c.calls);
    forall k: nat | k < c.calls && k < BudgetedCalls(z, n, true, c.limit)
      ensures !SpentAfter(z, n, true, c.limit, k)
    {
      if SpentAfter(z, n, true, c.limit, k) {
        NeverEnds(z, c.input.contents, true, c.limit, k, c.calls);
      }
    }
    PipeRuns(z, c.input.contents, c.limit, c.calls);
    if z.asked == z.expected {
      WholeOnly(z, n, c.limit);
      PipeSends(z, c.input.contents, c.limit, c.calls);
    }
  }

  // A channel whose input does not end is never over, unless a signal comes or an output port fails.
  lemma {:induction false} NeverOver(c: EncChannel)
    requires c.Valid() && c.format.Valid() && !c.InputWillEnd()
    ensures c.active || c.interrupted || c.exitCondOutput == ERROR || (c.withRecon && c.exitCondRecon == ERROR)
  {
    hide Run, Stream, Packets, Pictures, InputFormat.Measure, InputFormat.Asked, InputFormat.Expected,
        InputFormat.Valid, OutputsFollow, InputEnds;
    SizesValid(c.format);
    EndsExactlyWhen(c.format.Measure(), c.input.contents, c.fifo, c.limit);
  }

  // Uncompressed pictures whose sizes agree: the input ends if there is any and a limit that counts.
  lemma {:induction false} UncompressedWillEnd(c: EncChannel)
    requires c.format.Valid() && !c.format.compressed && c.format.Asked() == c.format.Expected()
    ensures c.InputWillEnd() <==> if c.fifo then c.limit != 0 else c.input.contents != [] && c.limit > 0
  {
    hide InputFormat.Measure, InputFormat.Asked, InputFormat.Expected, InputFormat.Valid, InputEnds;
    SizesValid(c.format);
    UncompressedEnds(c.format, |c.input.contents|, c.fifo, c.limit);
  }

  // The file written is read back by the decoder application as the packets received, in
  // order, with timestamps 0, 1, 2, ...
  lemma {:induction false} ReadBackByDecoder(c: EncChannel)
    requires c.Valid()
    ensures PacketSizes(Packets(c.encoder.trace))
    ensures
      var packets, file := Packets(c.encoder.trace), c.writer.file.contents;
      packets != [] && |packets| < TWO_63 && !packets[0].altRef && Readable(packets) ==>
        && IsIvf(file) && file[..32] == StreamHeader(c.writer.config)
        && ParseFrames(file[32..]) == Numbered(packets, 0)
  {
    hide Run, Stream, Pictures, Packets, InputFormat.Measure, IsIvf, ParseFrames, StreamHeader, Numbered, PacketPort,
        ReconPort, BlocksLast;
    var packets := Packets(c.encoder.trace);
    if packets != [] && |packets| < TWO_63 && !packets[0].altRef && Readable(packets) {
      ReadBack(c.writer.config, packets);
    }
  }

  // And the reconstruction file holds each picture in its display slot.
  lemma {:induction false} ReconInDisplayOrder(c: EncChannel, size: nat)
    requires c.Valid() && OneSize(c, size) && size > 0
    ensures R.Holds(c.recon.contents, R.Slots(Recons(c.encoder.trace)), size)
  {
    hide Run, Stream, Pictures, Packets, InputFormat.Measure, PacketPort, ReconPort, BlocksLast, R.Holds, R.Slots,
        R.Written, Recons;
    R.WrittenHolds(Recons(c.encoder.trace), size);
  }

  ghost predicate OneSize(c: EncChannel, size: nat)
    reads c.encoder
  {
    R.OneSize(Recons(c.encoder.trace), size)
  }
}
