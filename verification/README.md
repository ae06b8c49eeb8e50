# A verified model of parts of SVT-AV1

This Dafny project models two families of code of SVT-AV1 and proves what they are for:
the stream and state code of the encoder and decoder applications, and the AVX2 kernels that must equal a
scalar definition. `dafny verify dfyconfig.toml` checks everything.

## What is modelled

**Applications**

| file | what it models |
|---|---|
| `Md5Rfc`, `Md5Rotation`, `Md5Transform`, `Md5Streaming`, `Md5TestSuite` | RFC 1321 as a definition with an answer of its test suite, and the streaming digest of the decoder application proved against it for any chunking |
| `DecoderOutput` | `write_frame`, `write_md5` and the decode loop that pairs them |
| `Leb128`, `ObuHeaders`, `ObuReaders`, `ObuStreams` | lengths, bit reader, header parser, and the reader that cuts a low-overhead stream into temporal units with a carry-over buffer |
| `AnnexB`, `AnnexBDetection` | the length-delimited reader, and the detection of its files |
| `Ivf` | the IVF printer of the encoder application and the reader of the decoder application, which undoes it |
| `EncoderInput`, `EncoderQueue`, `ReconFile`, `EncoderChannel`, `ChannelOutcome` | the input, packet and reconstruction ports around an encoder whose replies are arbitrary, the channel steps and the encode loop |

**Kernels**

| file | what it models |
|---|---|
| `Simd`, `Lanes`, `Shifts`, `Plane` | registers as sequences of lanes with one function per intrinsic, sums over lanes, arithmetic shifts, rows of pixels in a buffer |
| `CompoundMask` | the difference-weighted compound masks |
| `MaskWeights`, `MaskBlend`, `D16Blend` | the mask blends of 8-bit pixels and of 16-bit predictions |
| `SmoothTables`, `Smooth`, `DcPrediction` | the smooth and DC intra predictors of high bit depth |
| `TenBit` | packing, compressing and unpacking of ten-bit planes |
| `Distortion`, `WordDistortion`, `SpatialDistortion`, `DistortionSizes`, `CoefficientDistortion` | sums of squared differences of words, bytes and transform coefficients |
| `Filter`, `Convolve` | the vertical and horizontal eight-tap filters of high bit depth |

Files are byte sequences with a position and an end-of-file flag; the encoder behind its queue gives any
replies that keep three promises stated in `EncoderQueue`. Machine integers are subsets of `int`, and every
wrap-around, saturation and truncation of the code is written out. A kernel is a method over the destination
array whose postcondition is the whole new contents of that array, as a function of the old contents: so it
also says what is not written. A register part the code leaves undefined is a parameter that may be anything.

## Where the code departs from its intent

These are kept as the code has them, with the exact condition under which the intended property holds.

- `obudec_read_one_obu` credits the capacity after growth instead of the amount grown. `OverrunCondition` says
  exactly when an OBU then does not fit, `OverrunStreamDoesNotFit` gives a well-formed stream with one, and
  `ObuStreams.ReadStream` returns the temporal units of a stream if and only if all its OBUs fit.
- `obudec_read_obu_header` ignores the result of the header parse; `IgnoredParseFailure` says exactly which
  rejected headers the reader goes on with.
- The Annex B reader refuses a temporal unit whose size plus the bytes of its length field passes 32 bits,
  although the size alone fits; `FrameAtBoundary` has that condition, `RefusedUnit` such a unit.
- The budget of the compressed input mode squares the width, and a second attempt counts the first one too.
  `EndsExactlyWhen` says when the input port ends, from the sizes, the length of the input and the limit alone;
  `PortraitStalls` is an input for which it never does. Sixteen-bit pictures whose chroma size is rounded
  differently before and after doubling are the other case (`SizesAgree`). `EncoderChannel.Encode` terminates
  under that condition, and `NeverOver` says that without it a channel goes on until a signal comes or an output
  port fails.
- The IVF stream header is not written when the first packet is an alt-ref (`IvfRoundTrip` is an if-and-only-if),
  and a default frame rate is lost when read back (`DefaultFrameRateIsLost`).
- The comment above `byte_swap` says the routine matters on big-endian machines. The code returns early exactly
  there, and on little-endian machines rewrites the same bytes: it never changes anything (`ByteSwap`). The digest
  is that of RFC 1321 on little-endian hosts; `BigEndianBlock` says which blocks are read alike
  elsewhere, and `BigEndianDigest` what then comes out.
- The mask lanes saturate; for shifts 8 to 12 this shows (`SaturationHidden`), but no caller uses those shifts.
- The multiply-add of the low bit depth blend reads predictions as signed words. `LowLaneExactWhen` gives the
  limit up to which this does not show, `SignedLimits` its values, and `LowLaneSigned` an input past it.
- The spatial distortion comes back through a signed 32-bit number below 160 columns. `SizeExactWhen` has the exact
  condition on the size, 33025 pixels, which every block meets; but deblocking hands whole planes to this kernel, and
  `LostPlane` is one whose sum is lost. Wider planes are exact up to the largest picture (`WidePlanesExact`).
- The residual of the coefficient distortion is summed with 32-bit additions; `ResidualExactWhen` says exactly
  when no carry is lost, `CarryLost` gives an input where one is, and an error below 2^32 is always exact
  (`SmallErrorExact`). Differences of more than 31 bits are squared modulo 2^32 first (`WrappedExactWhen`).

## Model

| member | source | states |
|---|---|---|
| Md5Transform.F1IsF | Source/App/DecApp/EbMD5Utility.c:44 | The rewritten core function F1 is the function F of section 3.4 of RFC 1321 for all words. |
| Md5Transform.F2IsG | Source/App/DecApp/EbMD5Utility.c:45 | F1 with its arguments turned round is the function G of section 3.4. |
| Md5Transform.OperationIsStep | Source/App/DecApp/EbMD5Utility.c:159-239 | Operation i of the RFC updates exactly the register whose turn it is, by one step macro. |
| Md5Transform.FourSteps | Source/App/DecApp/EbMD5Utility.c:159-239 | Four step macros in a row are four operations of the RFC, for every group of four of the 64. |
| Md5Transform.Transform | Source/App/DecApp/EbMD5Utility.c:159-239 | md5_transform is the compression of one block as section 3.4 of RFC 1321 defines it. |
| Md5Rotation.RotateIsLeft | Source/App/DecApp/EbMD5Utility.c:49 | The shifts and the or of the step macro rotate a word as section 2 of RFC 1321 says, in arithmetic, by every distance from 1 to 31. |
| Md5TestSuite.EmptyMessage | Source/App/DecApp/EbMD5Utility.c:159-239 | The digest of the empty message is d41d8cd98f00b204e9800998ecf8427e, as in appendix A.5 of RFC 1321, proved operation by operation: it pins tables, distances, auxiliary functions and initial words. |
| Md5Streaming.CounterCarry | Source/App/DecApp/EbMD5Utility.c:85-88 | The byte count in two 32-bit words with carry is the number of bytes modulo 2^64. |
| Md5Streaming.CounterBits | Source/App/DecApp/EbMD5Utility.c:145-146 | The two length words made from the byte count are the length in bits modulo 2^64. |
| Md5Streaming.LastBlock | Source/App/DecApp/EbMD5Utility.c:141-147 | Words stored natively into the last block are read back as the same words. |
| Md5Streaming.LittleEndianDigest | Source/App/DecApp/EbMD5Utility.c:123-152 | On a little-endian host the digest written is the digest of RFC 1321 for every message, one or two padding blocks. |
| Md5Streaming.BigEndianBlock | Source/App/DecApp/EbMD5Utility.c:51-62 | On a big-endian host byte_swap returns early; a block is then read as the RFC reads it if and only if each of its words is a palindrome of bytes. |
| Md5Streaming.BigEndianDigest | Source/App/DecApp/EbMD5Utility.c:51-62 | For messages whose words, padded, are all palindromes of bytes, a big-endian host writes the digest of RFC 1321 with the bytes of every word the other way round. |
| Md5Streaming.Md5Context.constructor | Source/App/DecApp/EbMD5Utility.c:68-76 | md5_init leaves a context that has hashed nothing. |
| Md5Streaming.Md5Context.ByteSwap | Source/App/DecApp/EbMD5Utility.c:51-62 | byte_swap leaves the buffer as it was, on either host. |
| Md5Streaming.Md5Context.Update | Source/App/DecApp/EbMD5Utility.c:82-117 | md5_update appends the bytes to the message hashed, keeping the invariant that ties counter, buffer and partial block to the message. |
| Md5Streaming.Md5Context.Final | Source/App/DecApp/EbMD5Utility.c:123-152 | md5_final gives the digest of the message hashed so far and wipes the context. |
| Md5Streaming.DigestOfChunks | Source/App/DecApp/EbMD5Utility.c:68-152 | Every chunking of a message gives the digest of the whole message. |
| DecoderOutput.RowsIgnorePadding | Source/App/DecApp/EbMD5Utility.c:248-291 | Planes with the same visible rows have the same samples, whatever their strides and padding. |
| DecoderOutput.SamplesLength | Source/App/DecApp/EbDecAppMain.c:77-119 | What is written and hashed has one byte a sample at eight bits and otherwise two, and as many samples as luma and both chroma planes have in each format. |
| DecoderOutput.LumaAt | Source/App/DecApp/EbDecAppMain.c:84-92 | Sample by sample: column x of row y of luma, both of its bytes, is at its row-major place without padding. |
| DecoderOutput.ChromaAt | Source/App/DecApp/EbDecAppMain.c:93-118 | Samples of cb come after luma and those of cr after cb, with half the columns, rounded up, at 4:2:0 and 4:2:2 and half the rows at 4:2:0. |
| DecoderOutput.ValidWhen | Source/App/DecApp/EbDecAppMain.c:77-119 | The memory both writers read: up to the end of the last row of every plane. |
| DecoderOutput.WriteMd5 | Source/App/DecApp/EbMD5Utility.c:248-291 | write_md5 hashes exactly the samples of a picture, for every format, depth and stride. |
| DecoderOutput.WriteFrame | Source/App/DecApp/EbDecAppMain.c:77-119 | write_frame appends exactly the samples of a picture to the file. |
| DecoderOutput.DecodeLoop | Source/App/DecApp/EbDecAppMain.c:214-262 | For every sequence of decoded pictures, skip count and stop count, the digest is the MD5 of the bytes in the output file. |
| Leb128.DecodeEncoding | Source/App/DecApp/EbFileUtils.c:58-83 | Any encoding, minimal or padded and followed by anything, decodes to its value and length exactly when it has at most eight bytes and a 32-bit value. |
| Leb128.SizeIsEncoding | Source/App/DecApp/EbFileUtils.c:58-83 | Conversely, whatever is decoded starts with a complete encoding. |
| Leb128.UlebDecode | Source/App/DecApp/EbFileUtils.c:58-83 | uleb_decode computes that decoding, or fails. |
| Leb128.ReadLeb128 | Source/App/DecApp/EbFileUtils.c:88-111 | obudec_read_leb128 reads exactly the encoding at the position of the file, and tells an empty file from a broken field. |
| Leb128.DecodePrefix | Source/App/DecApp/EbFileUtils.c:88-111 | The bytes read one at a time decide the outcome of decoding all the bytes left. |
| ObuHeaders.BitReader.ReadBit | Source/App/DecApp/EbFileUtils.c:113-123 | The bit at the offset, or zero without moving past the end. |
| ObuHeaders.BitReader.ReadLiteral | Source/App/DecApp/EbFileUtils.c:125-130 | A literal is the number its bits spell, high-order bit first. |
| ObuHeaders.ReadObuHeader | Source/App/DecApp/EbFileUtils.c:151-198 | The header parser, bit by bit, equals its description by fields, including what it has stored when it fails. |
| ObuHeaders.AcceptedHeaders | Source/App/DecApp/EbFileUtils.c:151-198 | The headers accepted, in bits: a clear first bit, one of the nine types, a length field unless the format has its own, clear reserved bits; and which bits become which field. |
| ObuHeaders.PrintThenParse | Source/App/DecApp/EbFileUtils.c:151-198 | Parsing inverts printing a header of sections 5.3.2 and 5.3.3 of the AV1 bitstream specification, for all field values allowed. |
| ObuHeaders.ParseThenPrint | Source/App/DecApp/EbFileUtils.c:151-198 | Every header the parser accepts is a printed one, so parsing loses nothing. |
| ObuHeaders.IgnoredParseFailure | Source/App/DecApp/EbFileUtils.c:218-246 | The file reader ignores the parse result; it goes on with a rejected header if and only if the forbidden bit is clear, the type known, the size flag set and a reserved bit set. |
| ObuReaders.ReadHeaderAndSize | Source/App/DecApp/EbFileUtils.c:218-313 | Reading a header and size consumes exactly their bytes and gives what the scan of the remaining file gives. |
| ObuReaders.OverrunCondition | Source/App/DecApp/EbFileUtils.c:459-516 | An OBU runs past the buffer if and only if the buffer had to grow for its header and it needs more than the room really there but no more than the room credited at line 477. |
| ObuReaders.SmallObuFits | Source/App/DecApp/EbFileUtils.c:459-516 | An OBU no larger than the current capacity always fits. |
| ObuReaders.OverrunExample | Source/App/DecApp/EbFileUtils.c:468-478 | With ten bytes of the initial buffer left, an OBU of 600000 bytes runs past its end; the stream of the next row brings the reader there. |
| ObuStreams.OverrunStreamDoesNotFit | Source/App/DecApp/EbFileUtils.c:459-516 | A well-formed stream for which the credited room is wrong: a temporal delimiter, an OBU that leaves ten bytes of the initial buffer, and an OBU of 600000 bytes, which runs past its end. |
| ObuReaders.ObuReader.GrowBuffer | Source/App/DecApp/EbFileUtils.c:434-457 | Growing keeps the bytes held and adds exactly the amount asked. |
| ObuReaders.ObuReader.ReadOneObu | Source/App/DecApp/EbFileUtils.c:459-516 | One OBU is appended to the bytes held, the file moves by its length, and the capacity is as predicted; or it fails or overruns. |
| ObuReaders.ObuReader.BufferUnit | Source/App/DecApp/EbFileUtils.c:571-594 | The loop buffers OBUs up to the next temporal delimiter; bytes held plus bytes unread stay the same. |
| ObuReaders.ObuReader.TakeUnit | Source/App/DecApp/EbFileUtils.c:596-612 | The unit returned is the bytes before the delimiter, and what stays buffered is the OBU read ahead. |
| ObuReaders.ObuReader.ReadTemporalUnit | Source/App/DecApp/EbFileUtils.c:518-622 | One call returns what scanning the bytes held and the bytes unread predicts. |
| ObuReaders.ObuReader.FileIsObu | Source/App/DecApp/EbFileUtils.c:332-432 | Detection accepts a file exactly by its first OBU and leaves that OBU buffered. |
| ObuStreams.HeaderBytes | Source/App/DecApp/EbFileUtils.c:147-216 | The bytes of an OBU header: type in four bits, 2 for a temporal delimiter, flags, reserved bits and layers. |
| ObuStreams.DetectsStream | Source/App/DecApp/EbFileUtils.c:332-432 | Of the streams of valid OBUs, detection accepts those whose first byte has type 2 with no payload, or type 1 with an OBU of at most 512000 bytes, and no others. |
| ObuStreams.LargePayloadFails | Source/App/DecApp/EbFileUtils.c:498-501 | A payload of more than 256 MiB is refused, whatever follows. |
| ObuStreams.UnitsPartition | Source/App/DecApp/EbFileUtils.c:571-612 | The temporal units of a list of OBUs are its OBUs in order, none lost, none added. |
| ObuStreams.TemporalUnitsOfStream | Source/App/DecApp/EbFileUtils.c:571-612 | A stream that starts with a temporal delimiter splits into units with exactly one delimiter each, at the start. |
| ObuStreams.TemporalUnitsUnique | Source/App/DecApp/EbFileUtils.c:571-612 | There is only one such splitting. |
| ObuStreams.UnitTypes | Source/App/DecApp/EbFileUtils.c:571-612 | In bytes: an OBU of type 2 stands at the start of every unit but possibly the first, and nowhere else, for every stream. |
| ObuStreams.ScanHeaderOfObu | Source/App/DecApp/EbFileUtils.c:218-313 | The bytes of a well-formed OBU scan as its header, its length field and its payload size. |
| ObuStreams.ScanUnitOfList | Source/App/DecApp/EbFileUtils.c:571-594 | Scanning the bytes of a list of OBUs stops where scanning the list does. |
| ObuStreams.SmallObusFit | Source/App/DecApp/EbFileUtils.c:459-516 | OBUs no larger than the buffer fit all through the stream. |
| ObuStreams.ReadStream | Source/App/DecApp/EbFileUtils.c:332-432 | The whole loop, detection and repeated reads: it terminates, and returns exactly the bytes of the temporal units in order if every OBU fits, and overruns its buffer otherwise. |
| AnnexB.AnnexBReader.ReadFrameUnit | Source/App/DecApp/EbFileUtils.c:538-570 | One call reads the temporal unit size when the counter is zero, then one frame unit, and counts down modulo 2^64. |
| AnnexB.AnnexBReader.ReadFrame | Source/App/DecApp/EbFileUtils.c:561-621 | The frame unit: its length field and bytes, and the counter afterwards. |
| AnnexB.FrameInUnit | Source/App/DecApp/EbFileUtils.c:538-621 | Inside a temporal unit the next call returns the next frame unit; the counter is the unread part of the unit and reaches zero exactly after the last one. |
| AnnexB.FrameAtBoundary | Source/App/DecApp/EbFileUtils.c:538-570 | At a boundary the next call opens the next temporal unit if its size and length field stay within 32 bits, and stops otherwise. |
| AnnexB.RefusedUnit | Source/App/DecApp/EbFileUtils.c:538-560 | A valid temporal unit the reader refuses: one frame unit filling the largest 32-bit size. |
| AnnexB.ReadStream | Source/App/DecApp/EbFileUtils.c:518-623 | For every well-formed stream of section B.2 of the AV1 bitstream specification, successive reads return exactly the frame units in order, up to the first unit the reader refuses. |
| AnnexBDetection.FileIsObu | Source/App/DecApp/EbFileUtils.c:332-432 | On a length-delimited file detection answers what the scan of its first two sizes and its first OBU says, and leaves an accepted file rewound. |
| AnnexBDetection.FirstHeader | Source/App/DecApp/EbFileUtils.c:218-313 | Header and size of the first OBU in this format, whose own length field may be absent. |
| AnnexBDetection.OpensIs | Source/App/DecApp/EbFileUtils.c:379-386 | In bytes: the first OBU opens a stream when its type is 1, or 2 with no payload or no length field of its own. |
| AnnexBDetection.AcceptsStream | Source/App/DecApp/EbFileUtils.c:332-432 | A well-formed stream is accepted if and only if its first OBU is a sequence header or a temporal delimiter (empty, if it has a length field of its own) and has no payload or ends within the size of the buffer. |
| Ivf.StreamWriter.WriteFrameHeader | Source/App/EncApp/EbAppProcessCmd.c:1028-1045 | A frame header carries the size and the running count, which goes up by one modulo 2^64. |
| Ivf.StreamWriter.WritePacket | Source/App/EncApp/EbAppProcessCmd.c:1162-1194 | One packet appends its headers and payload; the stream header only when the first counted frame is written. |
| Ivf.StreamSnoc | Source/App/EncApp/EbAppProcessCmd.c:1162-1194 | Writing packets one by one is writing the list. |
| Ivf.FileIsIvf | Source/App/DecApp/EbFileUtils.c:625-654 | Detection accepts exactly files with the signature and a whole header, stores its fields, and otherwise rewinds. |
| Ivf.ReadBuffer.ReadIvfFrame | Source/App/DecApp/EbFileUtils.c:656-699 | One frame read from the file is the first frame a reference parser finds. |
| Ivf.ReadAll | Source/App/DecApp/EbFileUtils.c:625-699 | Reading a file to the end gives exactly the frames of the reference parser. |
| Ivf.NoSecondHeader | Source/App/EncApp/EbAppProcessCmd.c:1185-1191 | Once a frame is counted no stream header is written again. |
| Ivf.HeaderFirst | Source/App/EncApp/EbAppProcessCmd.c:1185-1191 | When the first packet is not an alt-ref the stream header comes first and only there. |
| Ivf.IvfRoundTrip | Source/App/EncApp/EbAppProcessCmd.c:980-1045 | The decoder application reads back the payloads of the encoder application if and only if the first packet is not an alt-ref and every payload is at most 256 MiB. |
| Ivf.ReadBack | Source/App/DecApp/EbFileUtils.c:656-699 | And then the timestamps are 0, 1, 2, and so on. |
| Ivf.HeaderBytes | Source/App/EncApp/EbAppProcessCmd.c:980-1019 | The stream header byte by byte: signature, version, length, codec and sizes in little-endian order. |
| Ivf.RateBytes | Source/App/EncApp/EbAppProcessCmd.c:997-1010 | Its frame rate: the rational given, or thousandths of the whole part of a 16.16 number. |
| Ivf.FrameHeaderBytes | Source/App/EncApp/EbAppProcessCmd.c:1028-1045 | Size and timestamp of a frame header, read as little-endian words, are those given. |
| Ivf.HeaderRoundTrip | Source/App/DecApp/EbFileUtils.c:625-654 | Width and height come back modulo 2^16; the frame rate, an explicit rational or thousandths of the whole part of a 16.16 number, comes back if and only if it is within the bounds of fix_framerate. |
| Ivf.DefaultFrameRateIsLost | Source/App/DecApp/EbFileUtils.c:44-50 | Without an explicit rational the frame rate written is always replaced by 30/1 when read. |
| EncoderInput.SizesAgree | Source/App/EncApp/EbAppProcessCmd.c:637-811 | The bytes asked for and the bytes expected of a picture differ only for sixteen-bit pictures whose chroma size is rounded differently before and after doubling. |
| EncoderInput.SizesIs | Source/App/EncApp/EbAppProcessCmd.c:637-811 | The bytes asked for, expected and budgeted of a picture in numbers, for every format, depth and mode. |
| EncoderInput.ReadPlanes | Source/App/EncApp/EbAppProcessCmd.c:700-811 | Planes are read one after the other; a short plane leaves nothing for the next. |
| EncoderInput.ReadInputFrames | Source/App/EncApp/EbAppProcessCmd.c:637-811 | One picture read, with the second attempt from the start of a regular file and the end of a pipe. |
| EncoderInput.RunBounds | Source/App/EncApp/EbAppProcessCmd.c:891-970 | A regular file: at most one picture a call, the limit never changes, and the port finishes only at the limit. |
| EncoderInput.EachCallSends | Source/App/EncApp/EbAppProcessCmd.c:891-970 | Every call with bytes remaining sends a picture. |
| EncoderInput.EndsExactlyWhen | Source/App/EncApp/EbAppProcessCmd.c:891-970 | The end of stream is sent if and only if there is something to read, the limit is positive (or, for a pipe, not zero), and none of the byte counts before the last call, which are a closed form of the sizes, the length of the input and the number of pictures, is the budget. For every format, file and pipe. |
| EncoderInput.FileCounts | Source/App/EncApp/EbAppProcessCmd.c:637-811 | That closed form for regular files of every format: k pictures count k sizes and, when a second attempt adds to the first, the remainder of the file each time its end is passed; a file shorter than a picture counts once or twice its length. |
| EncoderInput.EndsAtLimit | Source/App/EncApp/EbAppProcessCmd.c:891-970 | And then exactly limit pictures were sent, or all whole pictures of a pipe that has fewer, in exactly as many calls, or one more. |
| EncoderInput.NeverEnds | Source/App/EncApp/EbAppProcessCmd.c:915-927 | Once the byte count meets the budget early no later call sends anything or changes any state. |
| EncoderInput.BudgetLasts | Source/App/EncApp/EbAppProcessCmd.c:906-924 | Where the sizes agree, as for uncompressed 4:2:0 pictures, the budget is never met early. |
| EncoderInput.UncompressedEnds | Source/App/EncApp/EbAppProcessCmd.c:891-970 | So such an input ends if and only if it is a non-empty file with a positive limit or a pipe with any limit but zero. |
| EncoderInput.LoopsOver | Source/App/EncApp/EbAppProcessCmd.c:637-811 | A regular file is read round and round: picture k sent is picture k modulo the number of pictures in it. |
| EncoderInput.StallsEarly | Source/App/EncApp/EbAppProcessCmd.c:906-924 | For every format and file: when the bytes counted for some number of pictures below the limit are the budget, the end of stream is never sent. |
| EncoderInput.PortraitStalls | Source/App/EncApp/EbAppProcessCmd.c:906-909 | The compressed mode squares the width: six pictures of 64 by 128 stop after five. |
| EncoderInput.PipeRuns | Source/App/EncApp/EbAppProcessCmd.c:637-970 | For every format, where a pipe stands after any number of calls and which pictures it has sent: whole pictures, where the sizes differ every second one, then what is left if it is as large as expected, then the end. |
| EncoderInput.PipeSends | Source/App/EncApp/EbAppProcessCmd.c:891-970 | Where the sizes agree a pipe sends every whole picture once, in order, up to the limit if there is one, drops the partial one and ends. |
| EncoderInput.PipeSendsAll | Source/App/EncApp/EbAppProcessCmd.c:891-970 | Without a limit, all of them. |
| EncoderQueue.Extend | Source/App/EncApp/EbAppProcessCmd.c:891-1318 | What one event adds to the pictures, packets and reconstructions of a trace and to the state of the ports. |
| EncoderQueue.Encoder.GetPacket | Source/App/EncApp/EbAppProcessCmd.c:1125-1164 | The replies assumed of the encoder: arbitrary, but a blocking call returns something, and after the end of input the last packet comes after finitely many calls. |
| EncoderChannel.AskedKeeps | Source/App/EncApp/EbAppProcessCmd.c:1125-1276 | A packet call keeps the relation between the trace, the ports and the file written. |
| EncoderChannel.FetchedKeeps | Source/App/EncApp/EbAppProcessCmd.c:1277-1318 | So does a reconstruction call. |
| EncoderChannel.ReportsFinished | Source/App/EncApp/EbAppMain.c:326-345 | The or-ed exit condition of a channel that is over is finished if and only if every enabled port finished. |
| EncoderChannel.SentInOrder | Source/App/EncApp/EbAppProcessCmd.c:891-970 | The pictures of any input run carry 0, 1, 2, and so on, with at most one end of stream, which is last. |
| EncoderChannel.EncChannel.ProcessInput | Source/App/EncApp/EbAppProcessCmd.c:891-970 | One call of the input port is one step of the input run, and sends what that step adds. |
| EncoderChannel.EncChannel.ProcessOutput | Source/App/EncApp/EbAppProcessCmd.c:1125-1276 | One call of the packet port keeps all invariants and blocks only when all input and reconstructions are through. |
| EncoderChannel.EncChannel.ProcessRecon | Source/App/EncApp/EbAppProcessCmd.c:1277-1318 | One call of the reconstruction port keeps all invariants and stores the picture in its slot. |
| EncoderChannel.EncChannel.Step | Source/App/EncApp/EbAppMain.c:326-345 | A step of an active channel whose format, input length and limit let its input end keeps the invariant and brings the channel nearer its end. |
| EncoderChannel.EncChannel.Start | Source/App/EncApp/EbAppMain.c:355-366 | A channel starts with its ports open, the reconstruction port only when there is a file, and not at all after an error. |
| EncoderChannel.HasActiveChannel | Source/App/EncApp/EbAppMain.c:315-324 | The scan answers whether some channel is active. |
| EncoderChannel.StepOne | Source/App/EncApp/EbAppMain.c:387-394 | A step of one channel changes no other. |
| EncoderChannel.Encode | Source/App/EncApp/EbAppMain.c:368-398 | If the format, input length and limit of every channel that starts let its input end, the loop over all channels terminates and leaves all of them over, their reports following from their traces. |
| ChannelOutcome.Orderly | Source/App/EncApp/EbAppProcessCmd.c:891-1164 | In every state of a run: timestamps in order, nothing after the end of stream, and packet calls that block exactly when every input and every enabled reconstruction is through. |
| ChannelOutcome.Finished | Source/App/EncApp/EbAppMain.c:326-345 | A channel over reports finished if and only if its end of stream went out and its last packet, and last reconstruction if enabled, came back. |
| ChannelOutcome.SentFromFile | Source/App/EncApp/EbAppProcessCmd.c:891-970 | A finished, uninterrupted channel on a regular file sent exactly the pictures asked for, going round the file, and then the end of stream. |
| ChannelOutcome.SentFromPipe | Source/App/EncApp/EbAppProcessCmd.c:891-970 | On a pipe it sent the pictures the pipe holds, for every format, up to the limit if one is given: where the sizes agree every whole picture once, in order. |
| ChannelOutcome.NeverOver | Source/App/EncApp/EbAppMain.c:326-345 | Conversely, a channel whose input does not end is never over, unless a signal comes or an output port fails. |
| ChannelOutcome.UncompressedWillEnd | Source/App/EncApp/EbAppProcessCmd.c:891-970 | For uncompressed pictures whose sizes agree the condition of the loop is: a non-empty file with a positive limit, or a pipe with any limit but zero. |
| ChannelOutcome.ReadBackByDecoder | Source/App/EncApp/EbAppProcessCmd.c:1185-1194 | What a channel wrote is read back by the decoder application as the packets received, in order, stamped from zero. |
| ChannelOutcome.ReconInDisplayOrder | Source/App/EncApp/EbAppProcessCmd.c:1277-1318 | The reconstruction file holds each picture in its display slot, zeros where none came. |
| ReconFile.RandomFile.Store | Source/App/EncApp/EbAppProcessCmd.c:1295-1312 | Rewinding, skipping one picture at a time and writing places the picture at its number times its size. |
| ReconFile.WrittenHolds | Source/App/EncApp/EbAppProcessCmd.c:1277-1318 | The file is the last picture received under each number, each in its slot. |
| ReconFile.OrderIrrelevant | Source/App/EncApp/EbAppProcessCmd.c:1277-1318 | The file does not depend on the order pictures come in. |
| CompoundMask.LaneIsClamped | Source/Lib/Common/ASM_AVX2/EbInterPredictionCom_avx2.c:17-28 | What the saturating lanes compute, for every pair of words and every shift. |
| CompoundMask.LaneIsWeight | Source/Lib/Common/ASM_AVX2/EbInterPredictionCom_avx2.c:17-28 | The lanes equal the unbounded formula of section 7.11.3.12 of the AV1 bitstream specification for shifts up to 7, and from 13 on. |
| CompoundMask.SaturationHidden | Source/Lib/Common/ASM_AVX2/EbInterPredictionCom_avx2.c:17-28 | They do for all words if and only if the shift is at most 7 or at least 13. |
| CompoundMask.PackedPair | Source/Lib/Common/ASM_AVX2/EbInterPredictionCom_avx2.c:17-43 | Packing two registers of lanes and ordering the quarters gives the masks of both in order, plain or inverse. |
| CompoundMask.Build4 | Source/Lib/Common/ASM_AVX2/EbInterPredictionCom_avx2.c:53-74 | The case of width 4: four rows in one register. |
| CompoundMask.Build128 | Source/Lib/Common/ASM_AVX2/EbInterPredictionCom_avx2.c:143-182 | The case of width 128: a row in four stores. |
| CompoundMask.BuildMask | Source/Lib/Common/ASM_AVX2/EbInterPredictionCom_avx2.c:327-346 | For every supported width, height, rounding and both types, the mask buffer holds the block row-major with the width as stride and nothing else changes. |
| CompoundMask.MaskAt | Source/Lib/Common/ASM_AVX2/EbInterPredictionCom_avx2.c:331-345 | Read back, every entry is min(64, 38 + d / 16), d the difference of its two pixels divided by 2^shift with halves rounded up, or the complement of that to 64; the weight is from 38 to 64, and equal pixels give 38. |
| CompoundMask.BuiltIsMask | Source/Lib/Common/ASM_AVX2/EbInterPredictionCom_avx2.c:327-346 | A mask that fills its buffer has no entry above 64, which is what the mask blends ask of theirs. |
| MaskBlend.BlendBounds | Source/Lib/Common/ASM_AVX2/EbBlend_a64_mask_avx2.c:25-57 | The rounded weighted average lies between its two pixels. |
| MaskBlend.PixelLane | Source/Lib/Common/ASM_AVX2/EbBlend_a64_mask_avx2.c:25-57 | The multiply-add lane with either rounding is the exact rounded blend: it never saturates. |
| MaskBlend.QuadLane | Source/Lib/Common/ASM_AVX2/EbBlend_a64_mask_avx2.c:59-86 | Four mask entries of at most 64 are averaged exactly: no byte sum wraps. |
| MaskBlend.NoBorrow | Source/Lib/Common/ASM_AVX2/EbBlend_a64_mask_avx2.c:405-426 | Subtracting two packed weights from two packed 64s borrows nothing across bytes. |
| MaskBlend.Weights8At | Source/Lib/Common/ASM_AVX2/EbBlend_a64_mask_avx2.c:129-165 | Weights of eight pixels from mask rows, in all four subsampling modes. |
| MaskBlend.Weights16At | Source/Lib/Common/ASM_AVX2/EbBlend_a64_mask_avx2.c:59-86 | Weights of sixteen pixels with columns subsampled. |
| MaskBlend.Weights32At | Source/Lib/Common/ASM_AVX2/EbBlend_a64_mask_avx2.c:88-127 | Weights of thirty-two pixels, lane order restored. |
| MaskBlend.Row16 | Source/Lib/Common/ASM_AVX2/EbBlend_a64_mask_avx2.c:194-217 | A row of sixteen pixels is the blend of its pixels whatever the casts leave in the high halves. |
| MaskBlend.Row32 | Source/Lib/Common/ASM_AVX2/EbBlend_a64_mask_avx2.c:219-250 | A row of thirty-two pixels is the blend of its pixels. |
| MaskBlend.RowPlain | Source/Lib/Common/ASM_AVX2/EbBlend_a64_mask_avx2.c:309-329 | The same for width 16 without column subsampling. |
| MaskBlend.RowLow | Source/Lib/Common/ASM_AVX2/EbBlend_a64_mask_avx2.c:129-192 | The same for widths 4 and 8. |
| MaskBlend.BlendMask | Source/Lib/Common/ASM_AVX2/EbBlend_a64_mask_avx2.c:482-522 | For all sources, strides, masks of entries up to 64, modes, widths and heights the destination holds the blended block and nothing else changes; also when a source is the destination, as it was before. |
| MaskBlend.EntryWeightIs | Source/Lib/Common/Codec/EbBlend_a64_mask.c:229-266 | The weight of a pixel in numbers: a mask entry, the average of two in a row or in a column with halves rounded up, or the rounded average of four. |
| MaskBlend.ValidWhen | Source/Lib/Common/Codec/EbBlend_a64_mask.c:214-267 | What a blend reads: sources and mask up to the end of their last rows, in every mode, and mask entries up to 64. |
| MaskBlend.BlendAt | Source/Lib/Common/ASM_AVX2/EbBlend_a64_mask_avx2.c:482-522 | Read back, every pixel is (m*x + (64-m)*y + 32) >> 6 with the rounded mask average of its mode, and lies between its sources. |
| D16Blend.OneShift | Source/Lib/Common/Codec/EbBlend_a64_mask.c:110-175 | Shifting once after moving the offset into the sum equals shifting, removing the offset and rounding, as the scalar version does. |
| D16Blend.HighLaneExact | Source/Lib/Common/ASM_AVX2/EbBlend_a64_mask_avx2.c:1143-1203 | For all 16-bit predictions the lane rebuilt from high and low product halves, packed with saturation and clipped, is the exact clipped value. |
| D16Blend.LowLaneExact | Source/Lib/Common/ASM_AVX2/EbBlend_a64_mask_avx2.c:525-571 | The signed multiply-add form agrees for predictions below 2^15, whatever the offset and shift. |
| D16Blend.LowLaneReadsSigned | Source/Lib/Common/ASM_AVX2/EbBlend_a64_mask_avx2.c:525-571 | For all predictions it is the blend of the predictions read as signed words. |
| D16Blend.LowLaneExactWhen | Source/Lib/Common/ASM_AVX2/EbBlend_a64_mask_avx2.c:525-571 | For every rounding at eight bits it agrees with the scalar blend under all weights if and only if both predictions are below 2^15, or below the offset plus half a rounding step, where both give 0. |
| D16Blend.SignedLimits | Source/Lib/Common/ASM_AVX2/EbBlend_a64_mask_avx2.c:525-571 | That limit is 2^15 for up to six rounding bits, 49216 for seven, and beyond all words for eight. |
| D16Blend.LowLaneSigned | Source/Lib/Common/ASM_AVX2/EbBlend_a64_mask_avx2.c:525-571 | With the four rounding bits of eight-bit compound prediction a prediction of 2^15 comes out as 0 instead of 255. |
| D16Blend.WordWeightsAt | Source/Lib/Common/ASM_AVX2/EbBlend_a64_mask_avx2.c:1344-1423 | Weights in words for sixteen pixels, in all four subsampling modes. |
| D16Blend.BlendLowDepth | Source/Lib/Common/ASM_AVX2/EbBlend_a64_mask_avx2.c:763-1013 | The low bit depth blend of whole blocks, all modes, widths from 16 on, for all predictions below that limit. |
| D16Blend.BlendHighDepth | Source/Lib/Common/ASM_AVX2/EbBlend_a64_mask_avx2.c:1425-1575 | The high bit depth blend of whole blocks, all widths, both or no axes subsampled. |
| D16Blend.BlendedIs | Source/Lib/Common/Codec/EbBlend_a64_mask.c:110-175 | The scalar blend in numbers: the weighted sum divided by 64, less 2^(n + bd) + 2^(n + bd - 1), divided by 2^n with halves rounded up, and clipped to bd bits. |
| D16Blend.WeightIs | Source/Lib/Common/Codec/EbBlend_a64_mask.c:145-207 | Its weight in numbers, in all four modes of mask subsampling. |
| D16Blend.ValidWhen | Source/Lib/Common/Codec/EbBlend_a64_mask.c:145-207 | What a blend of predictions reads, likewise. |
| D16Blend.BlendD16At | Source/Lib/Common/ASM_AVX2/EbBlend_a64_mask_avx2.c:1425-1575 | Read back, every pixel is the scalar blend of its two predictions with its averaged weight. |
| SmoothTables.DoubledIsPairs | Source/Lib/Common/ASM_AVX2/EbHighbdIntraPrediction_AVX2.c:1217-1363 | The doubled row weight tables hold the weights of sm_weight_arrays next to their complements to 256. |
| SmoothTables.ColumnsArePairs | Source/Lib/Common/ASM_AVX2/EbHighbdIntraPrediction_AVX2.c:1217-1363 | So do the column tables, in the order the unpacking needs. |
| Smooth.SmoothBounds | Source/Lib/Common/ASM_AVX2/EbHighbdIntraPrediction_AVX2.c:1415-1440 | The rounded four-term average lies between the smallest and the largest of its pixels. |
| Smooth.KernelLaneExact | Source/Lib/Common/ASM_AVX2/EbHighbdIntraPrediction_AVX2.c:1415-1440 | For pixels up to 15 bits a lane of the kernel is that average, and the saturating pack changes nothing. |
| Smooth.WidePieceIsRow | Source/Lib/Common/ASM_AVX2/EbHighbdIntraPrediction_AVX2.c:1563-1569 | Sixteen lanes are sixteen consecutive pixels of their row. |
| Smooth.NarrowPieceIsRows | Source/Lib/Common/ASM_AVX2/EbHighbdIntraPrediction_AVX2.c:1442-1451 | At width 8 the two halves are two rows. |
| Smooth.Predict | Source/Lib/Common/ASM_AVX2/EbHighbdIntraPrediction_AVX2.c:1475-1925 | For every size the destination holds the predicted block and nothing else changes. |
| Smooth.PredictAt | Source/Lib/Common/ASM_AVX2/EbHighbdIntraPrediction_AVX2.c:1475-1925 | Read back, every pixel is the average of section 7.11.2.6 of the AV1 bitstream specification with the weights of its row and column, between its four pixels. |
| DcPrediction.MeanBetween | Source/Lib/Common/ASM_AVX2/EbHighbdIntraPrediction_AVX2.c:671-808 | The rounded mean lies between the smallest and the largest neighbour. |
| Lanes.FoldedTotal | Source/Lib/Common/ASM_SSE2/EbHighbdIntraPrediction_SSE2.h:19-25 | Four 32-bit lanes folded by shifts and additions give their sum modulo 2^32 in the low lane. |
| DcPrediction.Sum4x16Exact | Source/Lib/Common/ASM_SSE2/EbHighbdIntraPrediction_SSE2.h:27-35 | Four 16-bit lanes folded in 16 bits give their sum, while it fits. |
| DcPrediction.Sum8x16Exact | Source/Lib/Common/ASM_SSE2/EbHighbdIntraPrediction_SSE2.h:43-47 | Eight lanes folded in 16 bits from first to last give their sum, while pairs and total fit. |
| DcPrediction.Sum4x16LargeExact | Source/Lib/Common/ASM_SSE2/EbHighbdIntraPrediction_SSE2.h:37-41 | Four lanes widened before they are folded give their sum. |
| DcPrediction.Sum8x16LargeExact | Source/Lib/Common/ASM_SSE2/EbHighbdIntraPrediction_SSE2.h:49-53 | Eight lanes folded once in 16 bits, then widened: exact as long as no pair wraps. |
| DcPrediction.SumLargeExact | Source/Lib/Common/ASM_AVX2/EbHighbdIntraPrediction_AVX2.c:22-34 | Up to 64 pixels of 12 bits: no 16-bit lane wraps before widening, and the sum is exact. |
| DcPrediction.SumLargerExact | Source/Lib/Common/ASM_AVX2/EbHighbdIntraPrediction_AVX2.c:36-48 | 65 to 128 pixels: the same with the earlier widening. |
| DcPrediction.DcSumExact | Source/Lib/Common/ASM_AVX2/EbHighbdIntraPrediction_AVX2.c:58-182 | Every dc_sum function for a block size, lane by lane, gives the exact sum of both sides. |
| DcPrediction.ThirteenBitsWrap | Source/Lib/Common/ASM_AVX2/EbHighbdIntraPrediction_AVX2.c:50-56 | One bit more is too many: sixteen pixels of 4096, folded in 16 bits, add up to 0. |
| DcPrediction.DcBothExact | Source/Lib/Common/ASM_AVX2/EbHighbdIntraPrediction_AVX2.c:671-808 | The shift form of square blocks and the division form of the others are the rounded mean. |
| DcPrediction.DcSideExact | Source/Lib/Common/ASM_AVX2/EbHighbdIntraPrediction_AVX2.c:345-431 | One side alone, in 16-bit or 32-bit arithmetic, gives the rounded mean of that side. |
| DcPrediction.PredictDc | Source/Lib/Common/ASM_AVX2/EbHighbdIntraPrediction_AVX2.c:671-808 | DC_PRED fills the block with the rounded mean of all neighbours and changes nothing else. |
| DcPrediction.PredictDcLeft | Source/Lib/Common/ASM_AVX2/EbHighbdIntraPrediction_AVX2.c:345-530 | DC_LEFT_PRED fills it with the mean of the left neighbours. |
| DcPrediction.PredictDcTop | Source/Lib/Common/ASM_AVX2/EbHighbdIntraPrediction_AVX2.c:532-665 | DC_TOP_PRED fills it with the mean of the neighbours above. |
| DcPrediction.DcAt | Source/Lib/Common/ASM_AVX2/EbHighbdIntraPrediction_AVX2.c:671-808 | Read back, every pixel is the rounded mean, between the smallest and the largest neighbour. |
| TenBit.SqueezedExtra | Source/Lib/Common/ASM_AVX2/EbPictureOperators_Intrinsic_AVX2.c:145-284 | Four two-bit extras squeezed into a byte come back, but for bits that were never used. |
| TenBit.LaneIsSqueezed | Source/Lib/Common/ASM_AVX2/EbPictureOperators_Intrinsic_AVX2.c:156-178 | The shifts and masks on a 32-bit lane squeeze its four bytes, for all bytes. |
| TenBit.SqueezedPacks | Source/Lib/Common/ASM_AVX2/EbPictureOperators_Intrinsic_AVX2.c:19-143 | Packing from a squeezed and expanded row is packing from the row itself. |
| TenBit.ExpandAt | Source/Lib/Common/ASM_AVX2/EbPictureOperators_Intrinsic_AVX2.c:39-59 | The unpacked nibbles and pairs are the extras of their bytes, in order. |
| TenBit.CPackDirect | Source/Lib/Common/ASM_AVX2/EbPictureOperators_Intrinsic_AVX2.c:145-284 | svt_c_pack without its cache squeezes every row to its place. |
| TenBit.CPackCached | Source/Lib/Common/ASM_AVX2/EbPictureOperators_Intrinsic_AVX2.c:190-242 | At 64 by 64 the cache of four rows gives the same plane. |
| TenBit.CPack | Source/Lib/Common/ASM_AVX2/EbPictureOperators_Intrinsic_AVX2.c:145-284 | So both paths of svt_c_pack agree. |
| TenBit.CompressedPack32 | Source/Lib/Common/ASM_AVX2/EbPictureOperators_Intrinsic_AVX2.c:25-84 | svt_compressed_packmsb at width 32 packs the plane with the expanded extras. |
| TenBit.CompressedPack64 | Source/Lib/Common/ASM_AVX2/EbPictureOperators_Intrinsic_AVX2.c:85-142 | And at width 64. |
| TenBit.MsbPack2d | Source/Lib/Common/ASM_AVX2/EbPictureOperators_Intrinsic_AVX2.c:286-497 | svt_enc_msb_pack2d packs every width that is a multiple of four, two rows a time. |
| TenBit.UnPack8 | Source/Lib/Common/ASM_AVX2/EbPackUnPack_Intrinsic_AVX2.c:16-288 | svt_enc_un_pack8_bit_data unpacks every width, with the four-wide vector and the scalar remainder. |
| TenBit.CompressedPackIsPack | Source/Lib/Common/ASM_AVX2/EbPictureOperators_Intrinsic_AVX2.c:19-284 | Compressing a plane of extras and packing from the compressed plane gives what packing from the plane itself gives. |
| TenBit.PackedPixelAt | Source/Lib/Common/ASM_AVX2/EbPictureOperators_Intrinsic_AVX2.c:286-497 | Read back, every packed pixel is four times its byte plus the two high bits of the other byte. |
| TenBit.SqueezedByteAt | Source/Lib/Common/ASM_AVX2/EbPictureOperators_Intrinsic_AVX2.c:145-284 | Read back, every squeezed byte holds the high pairs of four bytes, the first pair on top. |
| TenBit.ExpandedPixelAt | Source/Lib/Common/ASM_AVX2/EbPictureOperators_Intrinsic_AVX2.c:19-143 | Read back, every pixel packed from a squeezed plane is four times its byte plus its own pair, whichever of the four. |
| TenBit.UnpackedByteAt | Source/Lib/Common/ASM_AVX2/EbPackUnPack_Intrinsic_AVX2.c:16-288 | Read back, every unpacked byte is bits 2 to 9 of its word. |
| TenBit.UnpackOfPack | Source/Lib/Common/ASM_AVX2/EbPackUnPack_Intrinsic_AVX2.c:16-288 | Unpacking any packed plane returns the eight-bit plane, for every stride. |
| Distortion.ErrorConcat | Source/Lib/Common/ASM_AVX2/EbPictureOperators_Intrinsic_AVX2.c:1576-1671 | The sum of squared differences of parts adds up. |
| Distortion.SplitColumns | Source/Lib/Common/ASM_AVX2/EbPictureOperators_Intrinsic_AVX2.c:1576-1671 | The error of a block is that of its left part and of its right part. |
| Distortion.SquaresExact | Source/Lib/Common/ASM_AVX2/EbPictureOperators_Inline_AVX2.h:126-155 | A multiply-add of absolute or signed differences with themselves is the exact sum of each pair of squares, at most 2*(2^15-1)^2. |
| Distortion.FlushedTotal | Source/Lib/Common/ASM_AVX2/EbPictureOperators_Inline_AVX2.h:150-155 | sum32_to64 adds the eight 32-bit lanes to the four 64-bit ones. |
| Distortion.LanesTogether | Source/Lib/Common/ASM_AVX2/EbPictureOperators_Intrinsic_AVX2.c:1669-1670 | The four 64-bit lanes together give the sum modulo 2^64. |
| WordDistortion.Kernel16Adds | Source/Lib/Common/ASM_AVX2/EbPictureOperators_Inline_AVX2.h:140-148 | Sixteen words more: the lanes add up to the error so far, while they have room for one more. |
| WordDistortion.TwoRound | Source/Lib/Common/ASM_AVX2/EbPictureOperators_Intrinsic_AVX2.c:1632-1654 | Two kernels before a flush still fit the lanes. |
| WordDistortion.FullDistortion | Source/Lib/Common/ASM_AVX2/EbPictureOperators_Intrinsic_AVX2.c:1576-1671 | For all inputs of at most 15 bits, widths that are multiples of four and supported heights the result is the exact sum of squared differences, as far as 64 bits hold it. |
| WordDistortion.PlainSum | Source/Lib/Common/ASM_AVX2/EbPictureOperators_Intrinsic_AVX2.c:1576-1671 | Which they do for every block of up to 2^34 words. |
| SpatialDistortion.DistortionExact | Source/Lib/Common/ASM_AVX2/EbPictureOperators_Inline_AVX2.h:105-112 | The lanes of a pair of rows of four or eight bytes. |
| SpatialDistortion.Lanes16Exact | Source/Lib/Common/ASM_AVX2/EbPictureOperators_Inline_AVX2.h:114-124 | The lanes of sixteen bytes widened. |
| SpatialDistortion.Lanes32Exact | Source/Lib/Common/ASM_AVX2/EbPictureOperators_Inline_AVX2.h:157-188 | The two registers of thirty-two bytes: bytes 0-7 and 16-23, bytes 8-15 and 24-31. |
| SpatialDistortion.RunOfColumns | Source/Lib/Common/ASM_AVX2/EbPictureOperators_Intrinsic_AVX2.c:1477-1513 | Lanes of neighbouring columns add up to the error of those columns. |
| SpatialDistortion.KeptColumns | Source/Lib/Common/ASM_AVX2/EbPictureOperators_Intrinsic_AVX2.c:1490-1513 | The masks for 20, 24 and 28 columns keep exactly the lanes of the columns of the block. |
| SpatialDistortion.KeptOfSixteen | Source/Lib/Common/ASM_AVX2/EbPictureOperators_Intrinsic_AVX2.c:1477-1489 | The mask for 12 columns keeps exactly the lanes of those columns. |
| SpatialDistortion.HaddExact | Source/Lib/Common/ASM_SSE2/EbPictureOperators_SSE2.h:22-27 | The lanes folded to one, each possibly wrapped, give the exact sum modulo 2^32, read as a signed number. |
| SpatialDistortion.WholeWide | Source/Lib/Common/ASM_AVX2/EbPictureOperators_Intrinsic_AVX2.c:1553-1566 | From 160 columns on the lanes are emptied after every row; they fit while width/32, plus the height if the width is no multiple of 32, is at most 16512. |
| SpatialDistortion.SpatialDistortion | Source/Lib/Common/ASM_AVX2/EbPictureOperators_Intrinsic_AVX2.c:1426-1570 | Below 160 columns the exact sum of squared differences comes back as a signed 32-bit number widened to 64 bits; from 160 on exactly, while the lanes fit. |
| SpatialDistortion.SignedIsExact | Source/Lib/Common/ASM_AVX2/EbPictureOperators_Intrinsic_AVX2.c:1569 | The signed 32-bit result is the sum if and only if the sum is below 2^31. |
| DistortionSizes.SizeExactWhen | Source/Lib/Common/ASM_AVX2/EbPictureOperators_Intrinsic_AVX2.c:1426-1570 | Below 160 columns, and for every size the kernel takes, the result is the sum whatever the pixels are if and only if width times height is at most 33025. |
| DistortionSizes.SmallBlocksExact | Source/Lib/Common/ASM_AVX2/EbPictureOperators_Intrinsic_AVX2.c:1426-1570 | So it is for every block of at most 33025 pixels, those of 128 by 128 among them, wherever it lies. |
| DistortionSizes.LargeBlockLost | Source/Lib/Common/ASM_AVX2/EbPictureOperators_Intrinsic_AVX2.c:1569 | And for every larger size there are pixels whose sum is lost. |
| DistortionSizes.LostPlane | Source/Lib/Encoder/Codec/EbDeblockingFilter.c:940-947 | The kernel on a plane of 128 by 264 pixels that all differ by 255: the sum is 2197324800, the result 2^64 - 2097642496. |
| DistortionSizes.WidePlanesExact | Source/Lib/Encoder/Globals/EbEncHandle.c:3458-3466 | Planes of up to 4096 by 2160 pixels, the largest the encoder takes, fit the lanes, and their sum fits 64 bits: from 160 columns on all of them come back exactly. |
| CoefficientDistortion.BlockHalves | Source/Lib/Common/ASM_AVX2/EbPictureOperators_Intrinsic_AVX2.c:1242-1291 | The low and high halves of the squares in the four lanes make up the squares of the block, for all 32-bit coefficients. |
| CoefficientDistortion.WrappedExactWhen | Source/Lib/Common/ASM_AVX2/EbPictureOperators_Intrinsic_AVX2.c:1266-1267 | Multiplying only the low half of a difference squares it exactly if and only if the difference is at most 2^31 from zero. |
| CoefficientDistortion.SquaresAreError | Source/Lib/Common/ASM_AVX2/EbPictureOperators_Intrinsic_AVX2.c:1242-1291 | So for coefficients of up to 31 bits the squares of the block are its error. |
| CoefficientDistortion.CoefficientDistortion | Source/Lib/Common/ASM_AVX2/EbPictureOperators_Intrinsic_AVX2.c:1242-1291 | For all 32-bit coefficients the prediction energy is exact modulo 2^64, and the residual lacks 2^32 times the carries out of the low halves; it is the error short of that when differences fit 32 bits. |
| CoefficientDistortion.ResidualExactWhen | Source/Lib/Common/ASM_AVX2/EbPictureOperators_Intrinsic_AVX2.c:1268 | The residual is exact if and only if in none of the four lanes the low halves of the squared differences add up to 2^32 or more. |
| CoefficientDistortion.SmallErrorExact | Source/Lib/Common/ASM_AVX2/EbPictureOperators_Intrinsic_AVX2.c:1242-1291 | Which holds whenever the error is below 2^32. |
| CoefficientDistortion.CarryLost | Source/Lib/Common/ASM_AVX2/EbPictureOperators_Intrinsic_AVX2.c:1268 | Two differences of 65535 in the first column of a 4 by 4 block are enough to lose a carry. |
| Filter.DotLaneExact | Source/Lib/Common/ASM_AVX2/convolve_avx2.h:599-607 | Four multiply-adds and three additions modulo 2^32 are the dot product of eight taps modulo 2^32. |
| Filter.OnceExact | Source/Lib/Common/ASM_AVX2/highbd_convolve_avx2.c:108-121 | Rounding, packing with saturation and clipping give the exact clipped rounded dot product, for pixels up to 15 bits and taps up to 4096. |
| Filter.TwiceExact | Source/Lib/Common/ASM_AVX2/highbd_convolve_avx2.c:215-232 | The same for the two roundings of the horizontal filter. |
| Filter.ConstantFixed | Source/Lib/Common/Codec/EbInterPrediction.c:762-820 | A constant picture is a fixed point of both roundings when the taps add up to 128. |
| Convolve.WindowPair | Source/Lib/Common/ASM_AVX2/highbd_convolve_avx2.c:56-107 | Unpacking rows r, r+1 with r+1, r+2 puts neighbouring rows in pairs, whatever the casts leave in the high halves. |
| Convolve.FirstWindow | Source/Lib/Common/ASM_AVX2/highbd_convolve_avx2.c:55-88 | The registers before the loop hold rows 0 to 6 in pairs. |
| Convolve.NextRows | Source/Lib/Common/ASM_AVX2/highbd_convolve_avx2.c:90-106 | At step i the window holds rows i to i+8 in pair order. |
| Convolve.WindowMoves | Source/Lib/Common/ASM_AVX2/highbd_convolve_avx2.c:146-152 | Moving the registers down keeps the window, two rows on. |
| Convolve.TwoRowsAre | Source/Lib/Common/ASM_AVX2/highbd_convolve_avx2.c:108-144 | The register of a step is two rows of the filtered block, for eight, four and two columns. |
| Convolve.VerticalColumnsTo | Source/Lib/Common/ASM_AVX2/highbd_convolve_avx2.c:51-155 | Eight columns, or the first two or four, filtered over all rows. |
| Convolve.ConvolveVertical | Source/Lib/Common/ASM_AVX2/highbd_convolve_avx2.c:21-155 | For every even height and supported width the destination holds the filtered block and nothing else changes. |
| Convolve.VerticalAt | Source/Lib/Common/Codec/EbInterPrediction.c:791-820 | Read back, every pixel is the sum of eight pixels of its column times the taps, divided by 128 with halves rounded up and clipped to 0 and 255, 1023 or 4095 by bit depth, as in the scalar version. |
| Convolve.TwoLinesAt | Source/Lib/Common/ASM_AVX2/highbd_convolve_avx2.c:203-232 | Even and odd pixels filtered apart are interleaved back in order. |
| Convolve.ConvolveHorizontal | Source/Lib/Common/ASM_AVX2/highbd_convolve_avx2.c:157-244 | The horizontal filter of whole blocks, for every even height, supported width and first rounding. |
| Convolve.HorizontalAt | Source/Lib/Common/Codec/EbInterPrediction.c:762-790 | Read back, every pixel is the sum of eight pixels of its row times the taps, rounded twice, by 2^round and by 2^(7 - round), and clipped to the bit depth, as in the scalar version. |
| Convolve.ConstantPicture | Source/Lib/Common/Codec/EbInterPrediction.c:762-820 | Both filters leave a picture of one value of the bit depth as it is when the taps add up to 128. |

## Left out

- Failures of `malloc` and `realloc`, null arguments, and lengths near `SIZE_MAX`.
- Malformed streams beyond what the theorems state; for them the model has the code's branches, but no theorem says more than which error is returned.
- The digest on big-endian hosts for messages with other words: the model computes it (`HostDigest`) and says nothing about it.
- `print_md5`, progress output, PSNR and SSIM statistics, timing, and first-pass statistics.
- The encoder and decoder libraries: the encoder is its queue, and the pictures a decoder returns are a parameter.
- Counters of frames and bytes of the applications are unbounded; the 64-bit and 32-bit wrap of `frame_count`, `byte_count` and `frames_encoded`, and the truncation of the compressed frame size to 32 bits, are not modelled.
- y4m input, preloaded input buffers, the bytes probed from a pipe before reading, the QP file and the injector.
- Failing `fseeko`, and an encoder run without a bitstream file.
- Option tables and setters of both applications, file opening and locking.
- The header flags of the input port are taken as zero before the first call; the source leaves them as allocated.
- Bitwise or of bits that do not overlap is written as a sum, and masking with constants as division and remainder.
- EncoderChannel.EncChannel.ProcessInput: the interrupt signal is a parameter of each call instead of an asynchronous handler.
- CompoundMask.BuildMask: shifts up to 7 only, which are all that the rounding of compound prediction gives.
- MaskBlend.BlendMask: heights of one and two, which the source leaves to its C version, are not modelled; of sources that overlap the destination only the destination itself, with its stride, is covered.
- D16Blend.BlendLowDepth: widths 4 and 8 go to SSE code whose bodies are not part of this model.
- D16Blend.BlendHighDepth: subsampling along one axis only is left to the C version by the source; the four narrow stores of a step are done in ascending order, which the rows do not notice since they do not overlap.
- Smooth.Predict: the unrolled stores of a row are a loop; width 4 goes to SSE code that is not part of this model.
- The horizontal and vertical smooth predictors, DC_128, H_PRED and V_PRED: special cases of the same lane reasoning with weaker claims.
- WordDistortion.FullDistortion: the branch for the leftover columns is taken inside one row loop instead of before three; an odd height with leftover 8 or width 16 to 31, for which the source does not stop at the last row, is excluded.
- SpatialDistortion.SpatialDistortion: two, three and four unrolled kernels of a row are one loop; from 160 columns on nothing is claimed when width/32, plus the height if the width is no multiple of 32, is above 16512.
- Convolve.ConvolveVertical: taps up to 4096 in size and pixels up to 15 bits, more than any filter or bit depth of the codec; the registers left undefined by casts share one arbitrary value.
- TenBit.CPack: the or of four masked lanes is written as the sum of their disjoint bits.
- The residual kernels, the 8/16-bit conversions, the unpack-average kernels and the inverse transforms.
