/** Writing and hashing decoded pictures: write_frame, write_md5 and the decode loop. */
module DecoderOutput {
  import opened Arithmetic
  import opened Files
  import opened MachineInts
  import opened Md5Streaming
  import opened Wrappers
  import Md5Rfc

  datatype ColorFormat = Yuv400 | Yuv420 | Yuv422 | Yuv444

  // EbSvtIOFormat: three planes with their strides, in samples.
  datatype Picture = Picture(
    luma: seq<u8>, cb: seq<u8>, cr: seq<u8>,
    yStride: nat, cbStride: nat, crStride: nat,
    width: nat, height: nat, colorFormat: ColorFormat, eightBit: bool)
  {
    // A count of samples in bytes: one each at 8 bits, otherwise two.
    function Bytes(samples: nat): nat { if eightBit then samples else 2 * samples }

    function ChromaWidth(): nat {
      if colorFormat == Yuv420 || colorFormat == Yuv422 then (width + 1) / 2 else width
    }

    function ChromaHeight(): nat {
      if colorFormat == Yuv420 then (height + 1) / 2 else height
    }

    // The memory the two writers read is there, and widths are C ints.
    ghost predicate Valid() {
      && width < 0x8000_0000
      && RowsFit(luma, 0, Bytes(width), Bytes(yStride), height)
      && (colorFormat != Yuv400 ==>
        && RowsFit(cb, 0, Bytes(ChromaWidth()), Bytes(cbStride), ChromaHeight())
        && RowsFit(cr, 0, Bytes(ChromaWidth()), Bytes(crStride), ChromaHeight()))
    }

    // The samples of the picture: luma, then cb and cr, row by row without padding.
    ghost function Samples(): seq<u8>
      requires Valid()
    {
      Rows(luma, 0, Bytes(width), Bytes(yStride), height) +
      if colorFormat == Yuv400 then []
      else
        Rows(cb, 0, Bytes(ChromaWidth()), Bytes(cbStride), ChromaHeight()) +
        Rows(cr, 0, Bytes(ChromaWidth()), Bytes(crStride), ChromaHeight())
    }
  }

  ghost predicate RowsFit(plane: seq<u8>, at: nat, rowBytes: nat, strideBytes: nat, h: nat)
    decreases h
  {
    h > 0 ==> at + rowBytes <= |plane| && RowsFit(plane, at + strideBytes, rowBytes, strideBytes, h - 1)
  }

  ghost function Rows(plane: seq<u8>, at: nat, rowBytes: nat, strideBytes: nat, h: nat): seq<u8>
    requires RowsFit(plane, at, rowBytes, strideBytes, h)
    decreases h
  {
    if h == 0 then []
    else plane[at..at + rowBytes] + Rows(plane, at + strideBytes, rowBytes, strideBytes, h - 1)
  }

  // Rows fit when the last one does.
  lemma {:induction false} RowsFitWhen(plane: seq<u8>, at: nat, rowBytes: nat, strideBytes: nat, h: nat)
    ensures RowsFit(plane, at, rowBytes, strideBytes, h)
            <==> h == 0 || at + Offset(h - 1, strideBytes) + rowBytes <= |plane|
    decreases h
  {
    hide Offset;
    OffsetNext(0, strideBytes);
    if h > 1 {
      RowsFitWhen(plane, at + strideBytes, rowBytes, strideBytes, h - 1);
      OffsetNext(h - 2, strideBytes);
    }
  }

  // What they hold, byte by byte.
  lemma {:induction false} RowsAt(plane: seq<u8>, at: nat, rowBytes: nat, strideBytes: nat, h: nat, y: nat, i: nat)
    requires RowsFit(plane, at, rowBytes, strideBytes, h)
    ensures |Rows(plane, at, rowBytes, strideBytes, h)| == Offset(h, rowBytes)
    ensures y < h && i < rowBytes ==>
      && Offset(y, rowBytes) + i < Offset(h, rowBytes) && at + Offset(y, strideBytes) + i < |plane|
      && Rows(plane, at, rowBytes, strideBytes, h)[Offset(y, rowBytes) + i] == plane[at + Offset(y, strideBytes) + i]
    decreases h
  {
    hide Offset;
    OffsetNext(0, strideBytes);
    OffsetNext(0, rowBytes);
    if h > 0 {
      OffsetNext(h - 1, rowBytes);
      RowsAt(plane, at + strideBytes, rowBytes, strideBytes, h - 1, if y > 0 then y - 1 else 0, i);
      if y > 0 {
        OffsetNext(y - 1, strideBytes);
        OffsetNext(y - 1, rowBytes);
      }
      if y < h {
        OffsetsApart(y, h, rowBytes);
      }
    }
  }

  // Sample j of a plane, of one byte or two, is sample i of a list.
  ghost predicate SameSample(s: seq<u8>, i: nat, plane: seq<u8>, j: nat, eightBit: bool) {
    if eightBit then i < |s| && j < |plane| && s[i] == plane[j]
    else
      && 2 * i + 1 < |s| && 2 * j + 1 < |plane|
      && s[2 * i] == plane[2 * j] && s[2 * i + 1] == plane[2 * j + 1]
  }

  // The size of a chroma plane: half the columns, rounded up, at 4:2:0 and 4:2:2, half the rows at 4:2:0, and
  // nothing at 4:0:0.
  ghost predicate ChromaIs(img: Picture, cw: nat, ch: nat) {
    match img.colorFormat
    case Yuv400 => cw == 0 && ch == 0
    case Yuv420 => cw == (img.width + 1) / 2 && ch == (img.height + 1) / 2
    case Yuv422 => cw == (img.width + 1) / 2 && ch == img.height
    case Yuv444 => cw == img.width && ch == img.height
  }

  // Rows of one or two bytes a sample.
  ghost predicate HasPlane(plane: seq<u8>, w: nat, stride: nat, h: nat, eightBit: bool) {
    if eightBit then RowsFit(plane, 0, w, stride, h) else RowsFit(plane, 0, 2 * w, 2 * stride, h)
  }

  ghost function PlaneRows(plane: seq<u8>, w: nat, stride: nat, h: nat, eightBit: bool): seq<u8>
    requires HasPlane(plane, w, stride, h, eightBit)
  {
    if eightBit then Rows(plane, 0, w, stride, h) else Rows(plane, 0, 2 * w, 2 * stride, h)
  }

  lemma {:induction false} SamplesAre(img: Picture, cw: nat, ch: nat)
    requires img.Valid() && ChromaIs(img, cw, ch)
    ensures
      && HasPlane(img.luma, img.width, img.yStride, img.height, img.eightBit)
      && HasPlane(img.cb, cw, img.cbStride, ch, img.eightBit) && HasPlane(img.cr, cw, img.crStride, ch, img.eightBit)
      && img.Samples() == PlaneRows(img.luma, img.width, img.yStride, img.height, img.eightBit)
                          + (PlaneRows(img.cb, cw, img.cbStride, ch, img.eightBit)
                             + PlaneRows(img.cr, cw, img.crStride, ch, img.eightBit))
  {
    if img.colorFormat != Yuv400 {
      hide Rows, RowsFit;
    }
  }

  lemma {:induction false} PlaneAt(plane: seq<u8>, eightBit: bool, w: nat, stride: nat, h: nat, y: nat, x: nat)
    requires HasPlane(plane, w, stride, h, eightBit)
    ensures
      var s := PlaneRows(plane, w, stride, h, eightBit);
      && |s| == (if eightBit then Offset(h, w) else 2 * Offset(h, w))
      && (y < h && x < w ==> SameSample(s, Offset(y, w) + x, plane, Offset(y, stride) + x, eightBit))
  {
    hide Rows, RowsFit;
    if eightBit {
      RowsAt(plane, 0, w, stride, h, y, x);
    } else {
      RowsAt(plane, 0, 2 * w, 2 * stride, h, y, 2 * x);
      RowsAt(plane, 0, 2 * w, 2 * stride, h, y, 2 * x + 1);
      OffsetTwice(h, w);
      OffsetTwice(y, w);
      OffsetTwice(y, stride);
    }
    hide Offset;
  }

  lemma {:induction false} OffsetTwice(y: nat, n: nat)
    ensures Offset(y, 2 * n) == 2 * Offset(y, n)
  {
  }

  // A sample of one of three lists joined.
  lemma {:induction false} SampleOfThree(p: seq<u8>, q: seq<u8>, r: seq<u8>, i: nat, plane: seq<u8>, j: nat,
                                         eightBit: bool, n: nat, m: nat)
    requires |p| == (if eightBit then n else 2 * n) && |q| == if eightBit then m else 2 * m
    ensures SameSample(p, i, plane, j, eightBit) ==> SameSample(p + (q + r), i, plane, j, eightBit)
    ensures SameSample(q, i, plane, j, eightBit) ==> SameSample(p + (q + r), n + i, plane, j, eightBit)
    ensures SameSample(r, i, plane, j, eightBit) ==> SameSample(p + (q + r), n + m + i, plane, j, eightBit)
  {
  }

  // What is written and hashed: one byte a sample, or two; luma before cb before cr, and the rows of each plane
  // without padding.
  lemma {:induction false} SamplesLength(img: Picture, cw: nat, ch: nat)
    requires img.Valid() && ChromaIs(img, cw, ch)
    ensures |img.Samples()| == (if img.eightBit then 1 else 2) * (img.width * img.height + 2 * (cw * ch))
  {
    SamplesAre(img, cw, ch);
    hide HasPlane, PlaneRows, Picture.Samples, Picture.Valid, ChromaIs;
    PlaneAt(img.luma, img.eightBit, img.width, img.yStride, img.height, 0, 0);
    PlaneAt(img.cb, img.eightBit, cw, img.cbStride, ch, 0, 0);
    PlaneAt(img.cr, img.eightBit, cw, img.crStride, ch, 0, 0);
    assert Offset(img.height, img.width) == img.width * img.height && Offset(ch, cw) == cw * ch;
  }

  lemma {:induction false} LumaAt(img: Picture, y: nat, x: nat)
    requires img.Valid() && y < img.height && x < img.width
    ensures SameSample(img.Samples(), Offset(y, img.width) + x, img.luma, Offset(y, img.yStride) + x, img.eightBit)
  {
    var cw, ch := img.ChromaWidth(), img.ChromaHeight();
    SamplesAre(img, if img.colorFormat == Yuv400 then 0 else cw, if img.colorFormat == Yuv400 then 0 else ch);
    hide HasPlane, PlaneRows, Picture.Samples, Picture.Valid, SameSample, Offset;
    PlaneAt(img.luma, img.eightBit, img.width, img.yStride, img.height, y, x);
  }

  // The second and the third of three lists joined.
  lemma {:induction false} SecondAndThird(p: seq<u8>, n: nat, cb: seq<u8>, cbStride: nat, cr: seq<u8>, crStride: nat,
                                          w: nat, h: nat, eightBit: bool, y: nat, x: nat)
    requires |p| == (if eightBit then n else 2 * n) && y < h && x < w
    requires HasPlane(cb, w, cbStride, h, eightBit) && HasPlane(cr, w, crStride, h, eightBit)
    ensures
      var s := p + (PlaneRows(cb, w, cbStride, h, eightBit) + PlaneRows(cr, w, crStride, h, eightBit));
      var i := n + Offset(y, w) + x;
      && SameSample(s, i, cb, Offset(y, cbStride) + x, eightBit)
      && SameSample(s, Offset(h, w) + i, cr, Offset(y, crStride) + x, eightBit)
  {
    hide HasPlane, PlaneRows, SameSample, Offset;
    PlaneAt(cb, eightBit, w, cbStride, h, y, x);
    PlaneAt(cr, eightBit, w, crStride, h, y, x);
    var q, r := PlaneRows(cb, w, cbStride, h, eightBit), PlaneRows(cr, w, crStride, h, eightBit);
    SampleOfThree(p, q, r, Offset(y, w) + x, cb, Offset(y, cbStride) + x, eightBit, n, Offset(h, w));
    SampleOfThree(p, q, r, Offset(y, w) + x, cr, Offset(y, crStride) + x, eightBit, n, Offset(h, w));
  }

  lemma {:induction false} ChromaAt(img: Picture, cw: nat, ch: nat, y: nat, x: nat)
    requires img.Valid() && ChromaIs(img, cw, ch) && y < ch && x < cw
    ensures
      var cb := Offset(img.height, img.width) + Offset(y, cw) + x;
      && SameSample(img.Samples(), cb, img.cb, Offset(y, img.cbStride) + x, img.eightBit)
      && SameSample(img.Samples(), Offset(ch, cw) + cb, img.cr, Offset(y, img.crStride) + x, img.eightBit)
  {
    SamplesAre(img, cw, ch);
    hide HasPlane, PlaneRows, Picture.Samples, Picture.Valid, SameSample, ChromaIs, Offset;
    PlaneAt(img.luma, img.eightBit, img.width, img.yStride, img.height, 0, 0);
    SecondAndThird(PlaneRows(img.luma, img.width, img.yStride, img.height, img.eightBit), Offset(img.height, img.width),
                   img.cb, img.cbStride, img.cr, img.crStride, cw, ch, img.eightBit, y, x);
  }

  // The memory the writers read: the last row of every plane ends within it.
  lemma {:induction false} ValidWhen(img: Picture, cw: nat, ch: nat)
    requires ChromaIs(img, cw, ch)
    ensures
      var b := if img.eightBit then 1 else 2;
      img.Valid() <==>
        && img.width < 0x8000_0000
        && (img.height == 0 || Offset(img.height - 1, b * img.yStride) + b * img.width <= |img.luma|)
        && (ch == 0 || Offset(ch - 1, b * img.cbStride) + b * cw <= |img.cb|)
        && (ch == 0 || Offset(ch - 1, b * img.crStride) + b * cw <= |img.cr|)
  {
    hide RowsFit, Offset;
    var b := if img.eightBit then 1 else 2;
    RowsFitWhen(img.luma, 0, b * img.width, b * img.yStride, img.height);
    RowsFitWhen(img.cb, 0, b * cw, b * img.cbStride, ch);
    RowsFitWhen(img.cr, 0, b * cw, b * img.crStride, ch);
  }

  // Two planes with the same visible rows have the same samples, whatever their strides
  // and whatever lies in the padding.
  lemma {:induction false} RowsIgnorePadding(p: seq<u8>, atP: nat, strideP: nat, q: seq<u8>, atQ: nat, strideQ: nat,
                                             rowBytes: nat, h: nat)
    requires RowsFit(p, atP, rowBytes, strideP, h) && RowsFit(q, atQ, rowBytes, strideQ, h)
    requires forall y: nat :: y < h ==> SameRow(p, atP, strideP, q, atQ, strideQ, rowBytes, y)
    ensures Rows(p, atP, rowBytes, strideP, h) == Rows(q, atQ, rowBytes, strideQ, h)
    decreases h
  {
    if h > 0 {
      assert SameRow(p, atP, strideP, q, atQ, strideQ, rowBytes, 0);
      var nextP, nextQ := atP + strideP, atQ + strideQ;
      forall y: nat | y < h - 1
        ensures SameRow(p, nextP, strideP, q, nextQ, strideQ, rowBytes, y)
      {
        assert SameRow(p, atP, strideP, q, atQ, strideQ, rowBytes, y + 1);
        assert atP + (y + 1) * strideP == nextP + y * strideP;
        assert atQ + (y + 1) * strideQ == nextQ + y * strideQ;
      }
      RowsIgnorePadding(p, nextP, strideP, q, nextQ, strideQ, rowBytes, h - 1);
    }
  }

  ghost predicate SameRow(p: seq<u8>, atP: nat, strideP: nat, q: seq<u8>, atQ: nat, strideQ: nat, rowBytes: nat,
                          y: nat) {
    var a, b := atP + y * strideP, atQ + y * strideQ;
    a + rowBytes <= |p| && b + rowBytes <= |q| && p[a..a + rowBytes] == q[b..b + rowBytes]
  }

  // The row loop of write_frame.
  method WriteRows(file: OutputFile, plane: seq<u8>, rowBytes: nat, strideBytes: nat, h: nat)
    requires RowsFit(plane, 0, rowBytes, strideBytes, h)
    modifies file
    ensures file.contents == old(file.contents) + Rows(plane, 0, rowBytes, strideBytes, h)
  {
    var buf: nat := 0;
    for y := 0 to h
      invariant RowsFit(plane, buf, rowBytes, strideBytes, h - y)
      invariant file.contents + Rows(plane, buf, rowBytes, strideBytes, h - y)
             == old(file.contents) + Rows(plane, 0, rowBytes, strideBytes, h)
    {
      file.Write(plane[buf..buf + rowBytes]);
      buf := buf + strideBytes;
    }
  }

  // The row loop of write_md5.
  method HashRows(md5: Md5Context, plane: seq<u8>, rowBytes: nat, strideBytes: nat, h: nat)
    requires md5.Valid() && rowBytes < WORD
    requires RowsFit(plane, 0, rowBytes, strideBytes, h)
    modifies md5, md5.input
    ensures md5.Valid() && md5.message == old(md5.message) + Rows(plane, 0, rowBytes, strideBytes, h)
  {
    hide Md5Context.Valid;
    var buf: nat := 0;
    for y := 0 to h
      invariant md5.Valid() && RowsFit(plane, buf, rowBytes, strideBytes, h - y)
      invariant md5.message + Rows(plane, buf, rowBytes, strideBytes, h - y)
             == old(md5.message) + Rows(plane, 0, rowBytes, strideBytes, h)
    {
      md5.Update(plane[buf..buf + rowBytes]);
      buf := buf + strideBytes;
    }
  }

  method WriteFrame(file: OutputFile, img: Picture)
    requires img.Valid()
    modifies file
    ensures file.contents == old(file.contents) + img.Samples()
  {
    hide Rows, RowsFit;
    var w, h := img.width, img.height;
    WriteRows(file, img.luma, img.Bytes(w), img.Bytes(img.yStride), h);
    if img.colorFormat != Yuv400 {
      if img.colorFormat == Yuv420 {
        w, h := (w + 1) / 2, (h + 1) / 2;
      } else if img.colorFormat == Yuv422 {
        w := (w + 1) / 2;
      }
      WriteRows(file, img.cb, img.Bytes(w), img.Bytes(img.cbStride), h);
      WriteRows(file, img.cr, img.Bytes(w), img.Bytes(img.crStride), h);
    }
  }

  method WriteMd5(md5: Md5Context, img: Picture)
    requires md5.Valid() && img.Valid()
    modifies md5, md5.input
    ensures md5.Valid() && md5.message == old(md5.message) + img.Samples()
  {
    hide Rows, RowsFit, Md5Context.Valid;
    var w, h := img.width, img.height;
    HashRows(md5, img.luma, img.Bytes(w), img.Bytes(img.yStride), h);
    if img.colorFormat != Yuv400 {
      if img.colorFormat == Yuv420 {
        w, h := (w + 1) / 2, (h + 1) / 2;
      } else if img.colorFormat == Yuv422 {
        w := (w + 1) / 2;
      }
      HashRows(md5, img.cb, img.Bytes(w), img.Bytes(img.cbStride), h);
      HashRows(md5, img.cr, img.Bytes(w), img.Bytes(img.crStride), h);
    }
  }

  // The samples of the pictures the decoder gives for a list of input frames.
  ghost function Shown(decoded: seq<Option<Picture>>): seq<u8>
    requires forall f :: f in decoded && f.Some? ==> f.value.Valid()
  {
    if decoded == [] then []
    else
      var f := decoded[|decoded| - 1];
      Shown(decoded[..|decoded| - 1]) + if f.Some? then f.value.Samples() else []
  }

  // Which input frames the loop decodes: those after the skipped ones, at most stopAfter
  // of them unless it is zero.
  function Decoded<T>(frames: seq<T>, skip: nat, stopAfter: nat): seq<T> {
    var rest := frames[if skip < |frames| then skip else |frames|..];
    if stopAfter == 0 || |rest| <= stopAfter then rest else rest[..stopAfter]
  }

  lemma {:induction false} ShownNone()
    ensures Shown([]) == []
  {
  }

  lemma {:induction false} ShownNext(frames: seq<Option<Picture>>, first: nat, next: nat)
    requires first <= next < |frames| && forall f :: f in frames && f.Some? ==> f.value.Valid()
    ensures
      var f := frames[next];
      Shown(frames[first..next + 1]) == Shown(frames[first..next]) + if f.Some? then f.value.Samples() else []
  {
    var s := frames[first..next + 1];
    assert s[|s| - 1] == frames[next] && s[..|s| - 1] == frames[first..next];
  }

  lemma {:induction false} DecodedSlice<T>(frames: seq<T>, skip: nat, stopAfter: nat, first: nat, next: nat)
    requires first == if skip < |frames| then skip else |frames|
    requires next == if stopAfter == 0 || |frames| - first <= stopAfter then |frames| else first + stopAfter
    ensures frames[first..next] == Decoded(frames, skip, stopAfter)
  {
  }

  // The loops of main: what the decoder gives for each input frame is a parameter.
  method DecodeLoop(bigEndian: bool, frames: seq<Option<Picture>>, skip: nat, stopAfter: nat)
    returns (file: seq<u8>, digest: seq<u8>)
    requires forall f :: f in frames && f.Some? ==> f.value.Valid()
    ensures file == Shown(Decoded(frames, skip, stopAfter))
    ensures digest == HostDigest(bigEndian, file)
    ensures !bigEndian ==> digest == Md5Rfc.Digest(file)
  {
    hide HostDigest, Md5Rfc.Digest, Shown, Decoded, Rows, RowsFit, Picture.Samples, Picture.Valid, Md5Context.Valid;
    var next: nat := 0;
    var skipFrame := skip;
    while skipFrame > 0
      invariant next <= |frames| && 0 <= skipFrame && next + skipFrame == skip
    {
      if next == |frames| { break; }
      next := next + 1;
      skipFrame := skipFrame - 1;
    }
    ghost var first := next;
    ShownNone();
    assert frames[first..next] == [];
    var out := new OutputFile();
    var md5 := new Md5Context(bigEndian);
    var inFrame: nat := 0;
    while next < |frames|
      invariant first <= next <= |frames| && inFrame == next - first
      invariant md5.Valid() && md5.bigEndian == bigEndian && fresh(md5) && fresh(md5.input) && fresh(out)
      invariant stopAfter == 0 || inFrame <= stopAfter
      invariant out.contents == md5.message == Shown(frames[first..next])
    {
      if stopAfter != 0 && inFrame >= stopAfter { break; }
      var picture := frames[next];
      ShownNext(frames, first, next);
      next := next + 1;
      inFrame := inFrame + 1;
      if picture.Some? {
        WriteMd5(md5, picture.value);
        WriteFrame(out, picture.value);
      }
    }
    DecodedSlice(frames, skip, stopAfter, first, next);
    file := out.contents;
    digest := md5.Final();
    LittleEndianDigest(file);
  }
}
