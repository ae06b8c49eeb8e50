/** The input port of the encoder application: reading pictures and counting down to the end of stream. */
module EncoderInput {
  import opened Arithmetic
  import opened Files
  import opened MachineInts

  // The fields of EbConfig that decide how a picture is read. Chroma planes are the luma
  // plane shifted right by 3 - colorFormat.
  datatype InputFormat = InputFormat(width: nat, height: nat, colorFormat: nat, sixteenBit: bool, compressed: bool) {
    ghost predicate Valid() {
      width > 0 && height > 0 && colorFormat <= 3 && (compressed ==> sixteenBit)
    }

    function Down(n: nat): nat {
      if colorFormat == 0 then n / 8 else if colorFormat == 1 then n / 4 else if colorFormat == 2 then n / 2 else n
    }

    function Luma(): nat { if sixteenBit && !compressed then 2 * (width * height) else width * height }

    function LumaExt(): nat { width / 4 * height }

    // The bytes asked of the file for a picture.
    function Asked(): nat {
      Luma() + 2 * Down(Luma()) + if compressed then LumaExt() + 2 * Down(LumaExt()) else 0
    }

    // The size a complete picture is expected to have.
    function Expected(): nat {
      if compressed then Asked()
      else (width * height + 2 * Down(width * height)) * if sixteenBit then 2 else 1
    }

    // The size of a picture in the count of bytes to process.
    function Budgeted(): nat {
      if compressed then
        var size := width * height + 2 * Down(width * width);
        size + size / 4
      else Expected()
    }

    function Measure(): Sizes { Sizes(Asked(), Expected(), Budgeted(), compressed) }
  }

  // The sizes of a picture as asked, as expected and as budgeted; recount is set when a
  // second attempt adds to the count of the first.
  datatype Sizes = Sizes(asked: nat, expected: nat, budget: nat, recount: bool) {
    ghost predicate Valid() { asked > 0 && expected > 0 }

    // What the sizes of every input format satisfy besides.
    ghost predicate Consistent() {
      Valid() && expected <= asked && if recount then asked == expected else budget == expected
    }
  }

  lemma {:induction false} SizesValid(f: InputFormat)
    requires f.Valid()
    ensures f.Measure().Valid() && f.Asked() > 0
    ensures f.Measure().Consistent()
  {
    MulAtLeast(f.width, f.height);
  }

  // The sizes in numbers: chroma is an eighth, a quarter, a half or all of the luma plane, rounded down, by format.
  lemma {:induction false} SizesIs(f: InputFormat, divisor: nat)
    requires f.Valid() && divisor == [8, 4, 2, 1][f.colorFormat]
    ensures
      var n, ext := f.width * f.height, f.width / 4 * f.height;
      if f.compressed then
        var size := n + 2 * (f.width * f.width / divisor);
        && f.Asked() == f.Expected() == n + 2 * (n / divisor) + ext + 2 * (ext / divisor)
        && f.Budgeted() == size + size / 4
      else if f.sixteenBit then
        && f.Asked() == 2 * n + 2 * (2 * n / divisor)
        && f.Expected() == f.Budgeted() == 2 * n + 4 * (n / divisor)
      else f.Asked() == f.Expected() == f.Budgeted() == n + 2 * (n / divisor)
  {
  }

  // The sizes asked and expected differ only for sixteen-bit pictures whose chroma size is
  // rounded differently before and after doubling.
  lemma {:induction false} SizesAgree(f: InputFormat)
    requires f.Valid()
    ensures
      var divisor := if f.colorFormat == 0 then 8 else if f.colorFormat == 1 then 4 else if f.colorFormat == 2 then
          2 else 1;
      f.Asked() == f.Expected() <==> f.compressed || !f.sixteenBit || f.width * f.height % divisor < (divisor + 1) / 2
  {
  }

  // What reading a picture gives: the bytes counted, the picture, the new position, and
  // whether a pipe has ended.
  datatype Reading = Reading(filled: nat, data: seq<u8>, pos: nat, ended: bool)

  ghost function ReadAt(z: Sizes, contents: seq<u8>, pos: nat, fifo: bool): (r: Reading)
    requires pos <= |contents|
    ensures r.pos <= |contents|
  {
    var asked, end := z.asked, |contents|;
    var first := Min(asked, end - pos);
    // a short picture is read again from the start, where a pipe cannot go
    var again := first != z.expected;
    var from := if again && !fifo then 0 else if again then pos + first else pos;
    var count := if again then Min(asked, end - from) else first;
    var filled := count + if again && z.recount then first else 0;
    var eof := count < asked || (again && fifo && first < asked);
    Reading(if eof && fifo && filled != z.expected then 0 else filled, contents[from..from + count],
            if eof && !fifo then 0 else from + count, eof && fifo)
  }

  // The input port between calls. limit is frames_to_be_encoded; frames are the pictures sent.
  datatype InputState = InputState(pos: nat, bytes: nat, limit: int, frames: seq<seq<u8>>, finished: bool)

  ghost function Remaining(z: Sizes, s: InputState): int {
    if s.limit < 0 then -1 else s.limit * z.budget - s.bytes
  }

  // One call of process_input_buffer.
  ghost function InputStep(z: Sizes, contents: seq<u8>, fifo: bool, interrupted: bool, s: InputState): (t: InputState)
    requires s.pos <= |contents|
    ensures t.pos <= |contents|
  {
    if s.finished || Remaining(z, s) == 0 then s
    else
      var r := ReadAt(z, contents, s.pos, fifo);
      var limit := if r.ended then |s.frames| else s.limit;
      var frames := if r.filled > 0 then s.frames + [r.data] else s.frames;
      InputState(r.pos, s.bytes + r.filled, limit, frames, |frames| == limit || (r.filled > 0 && interrupted))
  }

  // The state after n calls when no signal comes.
  ghost function Run(z: Sizes, contents: seq<u8>, fifo: bool, limit: int, n: nat): (s: InputState)
    ensures s.pos <= |contents|
  {
    if n == 0 then InputState(0, 0, limit, [], false)
    else InputStep(z, contents, fifo, false, Run(z, contents, fifo, limit, n - 1))
  }

  // ----- the reading method -----

  // One plane after the other; a short plane leaves nothing for the next.
  method ReadPlanes(file: InputFile, luma: nat, chroma: nat) returns (data: seq<u8>)
    requires file.Valid()
    modifies file
    ensures file.Valid() && old(file.pos) <= file.pos && data == file.contents[old(file.pos)..file.pos]
    ensures |data| == Min(luma + 2 * chroma, |file.contents| - old(file.pos))
    ensures file.eof == (old(file.eof) || |data| < luma + 2 * chroma)
  {
    var y := file.Read(luma);
    var cb := file.Read(chroma);
    var cr := file.Read(chroma);
    data := y + cb + cr;
  }

  method ReadPicture(file: InputFile, f: InputFormat) returns (data: seq<u8>)
    requires file.Valid()
    modifies file
    ensures file.Valid() && old(file.pos) <= file.pos && data == file.contents[old(file.pos)..file.pos]
    ensures |data| == Min(f.Asked(), |file.contents| - old(file.pos))
    ensures file.eof == (old(file.eof) || |data| < f.Asked())
  {
    data := ReadPlanes(file, f.Luma(), f.Down(f.Luma()));
    if f.compressed {
      var ext := ReadPlanes(file, f.LumaExt(), f.Down(f.LumaExt()));
      data := data + ext;
    }
  }

  // The second attempt, where the first was not what is expected: a regular file is read from its start again.
  method ReadTwice(file: InputFile, f: InputFormat, fifo: bool) returns (filled: nat, data: seq<u8>)
    requires file.Valid() && f.Asked() > 0 && (file.eof ==> fifo && file.pos == |file.contents|)
    modifies file
    ensures file.Valid()
    ensures
      var z, end, pos := f.Measure(), |file.contents|, old(file.pos);
      var first := Min(z.asked, end - pos);
      var from := if first == z.expected then pos else if fifo then pos + first else 0;
      var count := if first == z.expected then first else Min(z.asked, end - from);
      && filled == count + (if first != z.expected && z.recount then first else 0)
      && file.pos == from + count && data == file.contents[from..file.pos]
      && (file.eof <==> count < z.asked || (fifo && first < z.asked))
  {
    hide InputFormat.Asked, InputFormat.Expected, InputFormat.Budgeted;
    data := ReadPicture(file, f);
    filled := |data|;
    if filled != f.Expected() {
      if !fifo { file.Rewind(); }
      data := ReadPicture(file, f);
      filled := |data| + if f.compressed then filled else 0;
    }
  }

  // read_input_frames
  method ReadInputFrames(file: InputFile, f: InputFormat, fifo: bool) returns (filled: nat, data: seq<u8>, ended: bool)
    requires file.Valid() && f.Asked() > 0 && (file.eof ==> fifo && file.pos == |file.contents|)
    modifies file
    ensures file.Valid() && (file.eof <==> ended) && (file.eof ==> fifo && file.pos == |file.contents|)
    ensures Reading(filled, data, file.pos, ended) == ReadAt(f.Measure(), file.contents, old(file.pos), fifo)
  {
    hide InputFormat.Asked, InputFormat.Expected, InputFormat.Budgeted;
    filled, data := ReadTwice(file, f, fifo);
    ended := false;
    if file.eof {
      if fifo {
        ended := true;
        if filled != f.Expected() { filled := 0; }
      } else {
        file.Rewind();
      }
    }
  }

  // ----- what a run sends -----

  lemma {:induction false} Stays(z: Sizes, contents: seq<u8>, fifo: bool, limit: int, m: nat, n: nat)
    requires m <= n && var s := Run(z, contents, fifo, limit, m); s.finished || Remaining(z, s) == 0
    ensures Run(z, contents, fifo, limit, n) == Run(z, contents, fifo, limit, m)
    decreases n
  {
    hide ReadAt, Remaining;
    if m < n {
      Stays(z, contents, fifo, limit, m, n - 1);
    }
  }

  // A regular file: at most one picture a call, limit never changes, and the port finishes
  // only at the limit.
  lemma {:induction false} RunBounds(z: Sizes, contents: seq<u8>, limit: int, n: nat)
    ensures
      var s := Run(z, contents, false, limit, n);
      |s.frames| <= n && s.limit == limit && (s.finished ==> n > 0 && |s.frames| == limit)
    decreases n
  {
    hide Remaining;
    if n > 0 {
      RunBounds(z, contents, limit, n - 1);
    }
  }

  // Every call of an unfinished port with bytes remaining sends a picture.
  lemma {:induction false} EachCallSends(z: Sizes, contents: seq<u8>, limit: int, n: nat)
    requires z.Valid() && contents != [] && n <= limit
    requires forall k :: 0 <= k < n ==> Remaining(z, Run(z, contents, false, limit, k)) != 0
    ensures
      var s := Run(z, contents, false, limit, n);
      |s.frames| == n && s.limit == limit && (s.finished <==> 0 < n == limit)
    decreases n
  {
    hide Remaining, ReadAt;
    if n > 0 {
      EachCallSends(z, contents, limit, n - 1);
      ReadSomething(z, contents, Run(z, contents, false, limit, n - 1).pos);
    }
  }

  lemma {:induction false} ReadSomething(z: Sizes, contents: seq<u8>, pos: nat)
    requires z.Valid() && contents != [] && pos <= |contents|
    ensures var r := ReadAt(z, contents, pos, false); r.filled > 0 && !r.ended
  {
  }

  lemma {:induction false} EmptyFileSendsNothing(z: Sizes, limit: int, n: nat)
    requires z.Valid()
    ensures Run(z, [], false, limit, n) == InputState(0, 0, limit, [], false)
    decreases n
  {
    hide ReadAt;
    if n > 0 {
      EmptyFileSendsNothing(z, limit, n - 1);
      ReadNothing(z);
      assert 0 * z.budget == 0;
    }
  }

  lemma {:induction false} ReadNothing(z: Sizes)
    requires z.Valid()
    ensures var r := ReadAt(z, [], 0, false); r.filled == 0 && r.pos == 0 && !r.ended
  {
  }

  // ----- which pictures -----

  // How many whole pictures a file of that length holds.
  ghost function PictureCount(size: nat, length: nat): nat
    requires size > 0
  {
    length / size
  }

  ghost function PictureAt(z: Sizes, contents: seq<u8>, k: nat): seq<u8>
    requires z.asked > 0 && k < PictureCount(z.asked, |contents|)
  {
    PictureFits(z.asked, |contents|, k);
    contents[Offset(k, z.asked)..Offset(k, z.asked) + z.asked]
  }

  // Reading a file of count pictures round and round.
  ghost function Index(sent: nat, count: nat): (k: nat)
    requires count > 0
    ensures k < count
  {
    sent % count
  }

  lemma {:induction false} PictureFits(size: nat, length: nat, k: nat)
    requires size > 0
    ensures k < PictureCount(size, length) <==> Offset(k, size) + size <= length
    ensures Offset(k + 1, size) == Offset(k, size) + size && Offset(0, size) == 0
  {
    var q, r := length / size, length % size;
    assert length == q * size + r;
    assert (k + 1) * size == k * size + size;
    if k < q {
      MulAtLeast(q - k, size);
      assert (q - k) * size == q * size - k * size;
    } else if k > q {
      MulAtLeast(k - q, size);
      assert (k - q) * size == k * size - q * size;
    }
  }

  // A regular file is read round and round: picture k sent is picture k modulo their number.
  lemma {:induction false} LoopsOver(z: Sizes, contents: seq<u8>, limit: int, n: nat)
    requires z.Valid() && z.asked == z.expected && |contents| >= z.asked
    ensures PictureCount(z.asked, |contents|) > 0
    ensures
      var s, count := Run(z, contents, false, limit, n), PictureCount(z.asked, |contents|);
      && s.pos == (if s.frames == [] then 0 else Offset(Index(|s.frames| - 1, count) + 1, z.asked))
      && forall k :: 0 <= k < |s.frames| ==> s.frames[k] == PictureAt(z, contents, Index(k, count))
    decreases n
  {
    hide Remaining, ReadAt, PictureAt, Offset, Index, PictureCount;
    PictureFits(z.asked, |contents|, 0);
    if n > 0 {
      LoopsOver(z, contents, limit, n - 1);
      var s := Run(z, contents, false, limit, n - 1);
      if !s.finished && Remaining(z, s) != 0 {
        NextPicture(z, contents, s.pos, |s.frames|);
      }
    }
  }

  lemma {:induction false} NextPicture(z: Sizes, contents: seq<u8>, pos: nat, sent: nat)
    requires z.asked == z.expected && |contents| >= z.asked > 0 && PictureCount(z.asked, |contents|) > 0
    requires pos == if sent == 0 then 0 else Offset(Index(sent - 1, PictureCount(z.asked, |contents|)) + 1, z.asked)
    ensures pos <= |contents|
    ensures
      var r, k := ReadAt(z, contents, pos, false), Index(sent, PictureCount(z.asked, |contents|));
      r.filled > 0 && !r.ended && r.data == PictureAt(z, contents, k) && r.pos == Offset(k + 1, z.asked)
    ensures
      var r, past := ReadAt(z, contents, pos, false), sent > 0 && Index(sent, PictureCount(z.asked, |contents|)) == 0;
      r.filled == z.asked + if past && z.recount then |contents| - Offset(PictureCount(z.asked, |contents|), z.asked)
          else 0
  {
    hide Offset, Index, ReadAt, PictureCount;
    var size, count := z.asked, PictureCount(z.asked, |contents|);
    NextIndex(sent, count);
    var k := Index(sent, count);
    PictureFits(size, |contents|, k);
    PictureFits(size, |contents|, count - 1);
    PictureFits(size, |contents|, count);
    PictureFits(size, |contents|, 0);
    if sent == 0 || k > 0 {
      ReadWhole(z, contents, pos);
    } else {
      ReadFromStart(z, contents, pos);
    }
  }

  lemma {:induction false} NextIndex(sent: nat, count: nat)
    requires count > 0
    ensures sent == 0 ==> Index(sent, count) == 0
    ensures sent > 0 ==>
      Index(sent, count) == if Index(sent - 1, count) + 1 == count then 0 else Index(sent - 1, count) + 1
  {
    if sent > 0 {
      var q, r := (sent - 1) / count, (sent - 1) % count;
      assert sent - 1 == q * count + r;
      if r + 1 == count {
        assert (q + 1) * count == q * count + count;
        Quotient(sent, count, q + 1, 0);
      } else {
        Quotient(sent, count, q, r + 1);
      }
    }
  }

  lemma {:induction false} ReadWhole(z: Sizes, contents: seq<u8>, pos: nat)
    requires z.asked == z.expected && pos + z.asked <= |contents|
    ensures forall fifo ::
      ReadAt(z, contents, pos, fifo) == Reading(z.asked, contents[pos..pos + z.asked], pos + z.asked, false)
  {
  }

  lemma {:induction false} ReadFromStart(z: Sizes, contents: seq<u8>, pos: nat)
    requires z.asked == z.expected && z.asked <= |contents| < pos + z.asked && pos <= |contents|
    ensures
      var r := ReadAt(z, contents, pos, false);
      r.filled == z.asked + (if z.recount then |contents| - pos else 0) && r.data == contents[..z.asked]
          && r.pos == z.asked && !r.ended
  {
  }

  // ----- the bytes counted -----

  // How often reading that many pictures, round and round a file that holds count, has passed its end.
  ghost function Rounds(k: nat, count: nat): nat
    requires count > 0
  {
    if k == 0 then 0 else (k - 1) / count
  }

  // A file of one picture as asked and one as expected, where these differ: they are read in turn.
  ghost predicate InTurn(z: Sizes, length: nat) { z.expected < z.asked && length == z.asked + z.expected }

  // The bytes counted by k reads. Passing the end of a file, the remainder is counted too when
  // a second attempt adds to the count of the first.
  ghost function Counted(z: Sizes, length: nat, fifo: bool, k: nat): nat
    requires z.asked > 0
  {
    if fifo then Offset(k, z.asked)
    else if length < z.asked then Offset(if z.recount then 2 * k else k, length)
    else if z.recount then Offset(k, z.asked) + Offset(Rounds(k, PictureCount(z.asked, length)), length % z.asked)
    else if InTurn(z, length) then Offset((k + 1) / 2, z.asked) + Offset(k / 2, z.expected)
    else Offset(k, z.asked)
  }

  // Where k reads leave a regular file.
  ghost function FilePos(z: Sizes, length: nat, k: nat): nat
    requires z.asked > 0
  {
    if length < z.asked || k == 0 then 0
    else if z.asked == z.expected then Offset(Index(k - 1, PictureCount(z.asked, length)) + 1, z.asked)
    else if InTurn(z, length) && k % 2 == 0 then 0
    else z.asked
  }

  // One read more: of a file shorter than a picture, ...
  lemma {:induction false} ReadShort(z: Sizes, contents: seq<u8>, k: nat)
    requires z.Consistent() && 0 < |contents| < z.asked
    ensures
      var r, n := ReadAt(z, contents, 0, false), |contents|;
      r.filled == Counted(z, n, false, k + 1) - Counted(z, n, false, k) > 0 && r.pos == 0 && !r.ended
  {
    hide Offset, Index, PictureCount;
    OffsetNext(k, |contents|);
    OffsetNext(2 * k, |contents|);
    OffsetNext(2 * k + 1, |contents|);
    assert 2 * (k + 1) == 2 * k + 2;
  }

  // ... of one that is read picture by picture, ...
  lemma {:induction false} ReadRound(z: Sizes, contents: seq<u8>, k: nat)
    requires z.Consistent() && z.asked == z.expected && |contents| >= z.asked
    ensures FilePos(z, |contents|, k) <= |contents|
    ensures
      var r, n := ReadAt(z, contents, FilePos(z, |contents|, k), false), |contents|;
      r.filled == Counted(z, n, false, k + 1) - Counted(z, n, false, k) > 0 && r.pos == FilePos(z, n, k + 1) && !r.ended
  {
    hide Offset, Index, PictureCount, Rounds, ReadAt;
    var size, n := z.asked, |contents|;
    PictureFits(size, n, 0);
    var count := PictureCount(size, n);
    NextPicture(z, contents, FilePos(z, n, k), k);
    RoundsNext(k, count);
    OffsetNext(k, size);
    OffsetNext(Rounds(k, count), n % size);
    Remainder(size, n);
  }

  lemma {:induction false} Remainder(size: nat, length: nat)
    requires size > 0
    ensures length == Offset(PictureCount(size, length), size) + length % size
  {
  }

  lemma {:induction false} RoundsNext(k: nat, count: nat)
    requires count > 0
    ensures Rounds(k + 1, count) == Rounds(k, count) + if k > 0 && Index(k, count) == 0 then 1 else 0
  {
    var q, r := k / count, k % count;
    assert k == q * count + r;
    if k > 0 && r == 0 {
      assert (q - 1) * count == q * count - count;
      Quotient(k - 1, count, q - 1, count - 1);
    } else if k > 0 {
      Quotient(k - 1, count, q, r - 1);
    } else {
      Quotient(0, count, 0, 0);
    }
  }

  // ... and of one whose pictures are never as large as expected.
  lemma {:induction false} ReadUneven(z: Sizes, contents: seq<u8>, k: nat)
    requires z.Consistent() && z.asked != z.expected && |contents| >= z.asked
    ensures FilePos(z, |contents|, k) <= |contents|
    ensures
      var r, n := ReadAt(z, contents, FilePos(z, |contents|, k), false), |contents|;
      r.filled == Counted(z, n, false, k + 1) - Counted(z, n, false, k) > 0 && r.pos == FilePos(z, n, k + 1) && !r.ended
  {
    hide Offset, Index, PictureCount;
    OffsetNext(k, z.asked);
    OffsetNext((k + 1) / 2, z.asked);
    OffsetNext(k / 2, z.expected);
  }

  lemma {:induction false} NextRead(z: Sizes, contents: seq<u8>, k: nat)
    requires z.Consistent() && contents != []
    ensures FilePos(z, |contents|, k) <= |contents|
    ensures
      var r, n := ReadAt(z, contents, FilePos(z, |contents|, k), false), |contents|;
      r.filled == Counted(z, n, false, k + 1) - Counted(z, n, false, k) > 0 && r.pos == FilePos(z, n, k + 1) && !r.ended
  {
    if |contents| < z.asked {
      ReadShort(z, contents, k);
    } else if z.asked == z.expected {
      ReadRound(z, contents, k);
    } else {
      ReadUneven(z, contents, k);
    }
    hide Counted, ReadAt;
  }

  lemma {:induction false} NothingCounted(z: Sizes, length: nat, fifo: bool)
    requires z.asked > 0
    ensures Counted(z, length, fifo, 0) == 0
  {
  }

  // The bytes counted after k pictures leave nothing to process.
  ghost predicate SpentAfter(z: Sizes, length: nat, fifo: bool, limit: int, k: nat)
    requires z.asked > 0
  {
    limit >= 0 && Counted(z, length, fifo, k) == limit * z.budget
  }

  // As long as the budget is not spent, the port of a regular file is where the count says.
  lemma {:induction false} FileCounts(z: Sizes, contents: seq<u8>, limit: nat, k: nat)
    requires z.Consistent() && contents != [] && k <= limit
    requires forall j: nat :: j < k ==> !SpentAfter(z, |contents|, false, limit, j)
    ensures
      var s, n := Run(z, contents, false, limit, k), |contents|;
      s.bytes == Counted(z, n, false, k) && s.pos == FilePos(z, n, k) && |s.frames| == k && s.limit == limit
          && (s.finished <==> 0 < k == limit)
    decreases k
  {
    hide Counted, ReadAt;
    if k > 0 {
      FileCounts(z, contents, limit, k - 1);
      NextRead(z, contents, k - 1);
      assert !SpentAfter(z, |contents|, false, limit, k - 1);
    } else {
      NothingCounted(z, |contents|, false);
    }
    hide FilePos;
  }

  // ----- when the end of stream is sent -----

  ghost predicate Ends(z: Sizes, contents: seq<u8>, fifo: bool, limit: int) {
    exists n: nat :: Run(z, contents, fifo, limit, n).finished
  }

  // What a call takes off a pipe: a picture, or two where every first one is not as large as expected.
  function Stretch(z: Sizes): nat { if z.asked == z.expected then z.asked else 2 * z.asked }

  // How many calls take that much off a pipe.
  ghost function WholeCalls(z: Sizes, length: nat): nat
    requires z.asked > 0
  {
    PictureCount(Stretch(z), length)
  }

  // What is left then is sent as well where it ends with a picture as large as expected.
  ghost function LastCalls(z: Sizes, length: nat): nat
    requires z.asked > 0
  {
    var left := length - Offset(WholeCalls(z, length), Stretch(z));
    if z.asked != z.expected && (left == z.expected || left == z.asked + z.expected) then 1 else 0
  }

  ghost predicate PipeEndsFirst(z: Sizes, length: nat, fifo: bool, limit: int)
    requires z.asked > 0
  {
    fifo && (limit < 0 || WholeCalls(z, length) < limit)
  }

  // How many pictures a port sends before its end of stream, and how many calls that takes: a
  // regular file is read up to the limit, a pipe up to the limit or to its end.
  ghost function PicturesToSend(z: Sizes, length: nat, fifo: bool, limit: int): int
    requires z.asked > 0
  {
    if PipeEndsFirst(z, length, fifo, limit) then WholeCalls(z, length) + LastCalls(z, length) else limit
  }

  ghost function CallsToEnd(z: Sizes, length: nat, fifo: bool, limit: int): int
    requires z.asked > 0
  {
    if PipeEndsFirst(z, length, fifo, limit) then WholeCalls(z, length) + LastCalls(z, length) + 1 else limit
  }

  // After how many calls the bytes left are still those of the limit given.
  ghost function BudgetedCalls(z: Sizes, length: nat, fifo: bool, limit: int): int
    requires z.asked > 0
  {
    if PipeEndsFirst(z, length, fifo, limit) then WholeCalls(z, length) + 1 else limit
  }

  // There is something to read, a limit that counts, and the bytes counted do not meet the budget
  // while it lasts.
  ghost predicate InputEnds(z: Sizes, length: nat, fifo: bool, limit: int)
    requires z.asked > 0
  {
    && (if fifo then limit != 0 else length > 0 && limit > 0)
    && forall k: nat :: k < BudgetedCalls(z, length, fifo, limit) ==> !SpentAfter(z, length, fifo, limit, k)
  }

  /** The input port sends its end of stream exactly when the sizes, the length of the input and the limit say so. */
  lemma {:induction false} EndsExactlyWhen(z: Sizes, contents: seq<u8>, fifo: bool, limit: int)
    requires z.Consistent()
    ensures Ends(z, contents, fifo, limit) <==> InputEnds(z, |contents|, fifo, limit)
  {
    hide InputStep, SpentAfter, BudgetedCalls;
    if InputEnds(z, |contents|, fifo, limit) {
      EndsAtLimit(z, contents, fifo, limit);
    } else if Ends(z, contents, fifo, limit) {
      var n: nat :| Run(z, contents, fifo, limit, n).finished;
      NothingToEnd(z, contents, fifo, limit, n);
      var k: nat :| k < BudgetedCalls(z, |contents|, fifo, limit) && SpentAfter(z, |contents|, fifo, limit, k);
      NeverEnds(z, contents, fifo, limit, k, n);
    }
  }

  lemma {:induction false} NothingToEnd(z: Sizes, contents: seq<u8>, fifo: bool, limit: int, n: nat)
    requires z.Valid() && Run(z, contents, fifo, limit, n).finished
    ensures if fifo then limit != 0 else |contents| > 0 && limit > 0
  {
    hide InputStep;
    if limit == 0 {
      assert Remaining(z, Run(z, contents, fifo, 0, 0)) == 0 by { assert 0 * z.budget == 0; }
      Stays(z, contents, fifo, 0, 0, n);
    } else if !fifo {
      RunBounds(z, contents, limit, n);
      if contents == [] {
        EmptyFileSendsNothing(z, limit, n);
      }
    }
  }

  // And then it has sent exactly so many pictures.
  lemma {:induction false} EndsAtLimit(z: Sizes, contents: seq<u8>, fifo: bool, limit: int)
    requires z.Consistent() && InputEnds(z, |contents|, fifo, limit)
    ensures CallsToEnd(z, |contents|, fifo, limit) > 0
    ensures
      var s := Run(z, contents, fifo, limit, CallsToEnd(z, |contents|, fifo, limit));
      s.finished && |s.frames| == PicturesToSend(z, |contents|, fifo, limit)
    ensures Ends(z, contents, fifo, limit)
  {
    hide Run, SpentAfter, WholeCalls, LastCalls;
    if fifo {
      PipeRuns(z, contents, limit, CallsToEnd(z, |contents|, true, limit));
    } else {
      FileCounts(z, contents, limit, limit);
    }
  }

  // Once the budget is spent early, no later call sends anything.
  lemma {:induction false} NeverEnds(z: Sizes, contents: seq<u8>, fifo: bool, limit: int, k: nat, n: nat)
    requires z.Consistent() && (fifo || contents != []) && limit != 0
    requires k < BudgetedCalls(z, |contents|, fifo, limit) && SpentAfter(z, |contents|, fifo, limit, k)
    ensures !Run(z, contents, fifo, limit, n).finished
    ensures n >= k ==> Run(z, contents, fifo, limit, n) == Run(z, contents, fifo, limit, k)
    decreases k
  {
    hide Run, SpentAfter, BudgetedCalls;
    if j: nat :| j < k && SpentAfter(z, |contents|, fifo, limit, j) {
      NeverEnds(z, contents, fifo, limit, j, n);
      NeverEnds(z, contents, fifo, limit, j, k);
    } else {
      SpentFirst(z, contents, fifo, limit, k);
      if n >= k {
        Stays(z, contents, fifo, limit, k, n);
      } else if Run(z, contents, fifo, limit, n).finished {
        Stays(z, contents, fifo, limit, n, k);
      }
    }
  }

  lemma {:induction false} SpentFirst(z: Sizes, contents: seq<u8>, fifo: bool, limit: int, k: nat)
    requires z.Consistent() && (fifo || contents != []) && limit != 0
    requires k < BudgetedCalls(z, |contents|, fifo, limit) && SpentAfter(z, |contents|, fifo, limit, k)
    requires forall j: nat :: j < k ==> !SpentAfter(z, |contents|, fifo, limit, j)
    ensures var s := Run(z, contents, fifo, limit, k); !s.finished && |s.frames| == k && Remaining(z, s) == 0
  {
    hide Run, WholeCalls, LastCalls, Counted;
    if fifo {
      PipeRuns(z, contents, limit, k);
      PipeCounted(z, |contents|, k);
    } else {
      FileCounts(z, contents, limit, k);
    }
  }

  lemma {:induction false} PipeCounted(z: Sizes, length: nat, k: nat)
    requires z.asked > 0
    ensures Counted(z, length, true, k) == Offset(k, z.asked)
  {
  }

  // Uncompressed pictures whose sizes agree never spend the budget early.
  lemma {:induction false} BudgetLasts(z: Sizes, length: nat, fifo: bool, limit: nat, k: nat)
    requires z.Consistent() && !z.recount && z.asked == z.budget && k < limit
    ensures !SpentAfter(z, length, fifo, limit, k)
  {
    hide Counted;
    CountedAtMost(z, length, fifo, k);
    var size := z.asked;
    assert limit * size - k * size == (limit - k) * size;
    MulAtLeast(limit - k, size);
  }

  lemma {:induction false} CountedAtMost(z: Sizes, length: nat, fifo: bool, k: nat)
    requires z.Consistent() && !z.recount
    ensures Counted(z, length, fifo, k) <= k * z.asked
  {
    var size := z.asked;
    if !fifo && length < size {
      MulMonotone(length, size, k);
    } else if !fifo && InTurn(z, length) {
      MulMonotone(z.expected, size, k / 2);
      assert (k + 1) / 2 + k / 2 == k;
      assert ((k + 1) / 2 + k / 2) * size == (k + 1) / 2 * size + k / 2 * size;
    }
  }

  /** Uncompressed pictures whose sizes agree always end, from a non-empty file with a positive limit or from a pipe. */
  lemma {:induction false} UncompressedEnds(f: InputFormat, length: nat, fifo: bool, limit: int)
    requires f.Valid() && !f.compressed && f.Asked() == f.Expected()
    ensures f.Measure().asked > 0
    ensures InputEnds(f.Measure(), length, fifo, limit) <==> if fifo then limit != 0 else length > 0 && limit > 0
  {
    SizesValid(f);
    var z := f.Measure();
    assert z.asked == z.budget && !z.recount;
    hide InputFormat.Asked, InputFormat.Expected, InputFormat.Measure, SpentAfter;
    var calls := BudgetedCalls(z, length, fifo, limit);
    forall k: nat | k < calls && (if fifo then limit != 0 else length > 0 && limit > 0)
      ensures !SpentAfter(z, length, fifo, limit, k)
    {
      UnlimitedLasts(z, length, fifo, limit, k);
      if limit > 0 && k < limit {
        BudgetLasts(z, length, fifo, limit, k);
      }
    }
  }

  // Without a limit there is no budget; with one, no call is left past it.
  lemma {:induction false} UnlimitedLasts(z: Sizes, length: nat, fifo: bool, limit: int, k: nat)
    requires z.asked > 0 && k < BudgetedCalls(z, length, fifo, limit)
    ensures limit < 0 ==> !SpentAfter(z, length, fifo, limit, k)
    ensures limit > 0 ==> k < limit
  {
  }

  // If the bytes counted meet the budget before the limit, the end of stream is never sent.
  lemma {:induction false} StallsEarly(z: Sizes, contents: seq<u8>, limit: nat, k: nat)
    requires z.Consistent() && k < limit && Counted(z, |contents|, false, k) == limit * z.budget
    ensures !Ends(z, contents, false, limit)
  {
    hide Run, Counted;
    assert SpentAfter(z, |contents|, false, limit, k);
    EndsExactlyWhen(z, contents, false, limit);
  }

  // The budget of the compressed mode squares the width: six pictures of 64x128 stop at five.
  lemma {:induction false} PortraitStalls(contents: seq<u8>)
    requires |contents| >= 5 * 15360
    ensures
      var f := InputFormat(64, 128, 1, true, true);
      f.Valid() && f.Measure() == Sizes(15360, 15360, 12800, true) && !Ends(f.Measure(), contents, false, 6)
  {
    var z := Sizes(15360, 15360, 12800, true);
    PictureFits(z.asked, |contents|, 4);
    Quotient(4, PictureCount(z.asked, |contents|), 0, 4);
    StallsEarly(z, contents, 6, 5);
  }

  // ----- pipes -----

  // The picture call k sends: the first one it takes, or the second where the first is not as
  // large as expected; the last one ends with the pipe.
  ghost function PipePicture(z: Sizes, contents: seq<u8>, k: nat): seq<u8> {
    var at := Offset(k, Stretch(z));
    var from := if z.asked == z.expected || |contents| - at == z.expected then at else at + z.asked;
    if from <= |contents| then contents[from..Min(from + z.asked, |contents|)] else []
  }

  // What a call takes off a pipe, where every first picture is not as large as expected ...
  lemma {:induction false} UnevenWhole(z: Sizes, contents: seq<u8>, pos: nat)
    requires z.Consistent() && z.asked != z.expected && pos + 2 * z.asked <= |contents|
    ensures
      var r := ReadAt(z, contents, pos, true);
      && r.filled == z.asked && r.pos == pos + 2 * z.asked && !r.ended
      && r.data == contents[pos + z.asked..pos + 2 * z.asked]
  {
  }

  // ... and what the last calls take.
  lemma {:induction false} UnevenRest(z: Sizes, contents: seq<u8>, pos: nat)
    requires z.Consistent() && z.asked != z.expected && pos <= |contents| < pos + 2 * z.asked
    ensures
      var r, left := ReadAt(z, contents, pos, true), |contents| - pos;
      && r.ended && r.pos == |contents|
      && r.filled == (if left == z.expected || left == z.asked + z.expected then z.expected else 0)
      && (left == z.expected ==> r.data == contents[pos..])
      && (left == z.asked + z.expected ==> r.data == contents[pos + z.asked..])
  {
  }

  lemma {:induction false} NextOfPipe(z: Sizes, contents: seq<u8>, k: nat)
    requires z.Consistent() && k <= WholeCalls(z, |contents|)
    ensures Offset(k, Stretch(z)) <= |contents|
    ensures
      var r := ReadAt(z, contents, Offset(k, Stretch(z)), true);
      && (r.filled > 0 ==> r.data == PipePicture(z, contents, k))
      && if k < WholeCalls(z, |contents|) then r.filled == z.asked && !r.ended && r.pos == Offset(k + 1, Stretch(z))
         else r.ended && r.pos == |contents| && r.filled == if LastCalls(z, |contents|) == 1 then z.expected else 0
  {
    hide Offset, ReadAt, PictureCount;
    var step, n := Stretch(z), |contents|;
    var pos := Offset(k, step);
    PictureFits(step, n, k);
    PictureFits(step, n, if k == 0 then 0 else k - 1);
    OffsetNext(k, step);
    if z.asked == z.expected {
      if k < WholeCalls(z, n) {
        ReadWhole(z, contents, pos);
      } else {
        ReadPastEnd(z, contents, pos);
      }
    } else if k < WholeCalls(z, n) {
      UnevenWhole(z, contents, pos);
    } else {
      UnevenRest(z, contents, pos);
    }
  }

  // Once the end is reached the bytes counted are not those of the pictures sent before it.
  lemma {:induction false} NeverSpentThen(z: Sizes, k: nat)
    requires z.Consistent() && z.asked != z.expected
    ensures k * z.budget != Offset(k, z.asked) + z.expected
  {
    MulMonotone(z.expected, z.asked, k);
  }

  lemma {:induction false} EndOfPipe(z: Sizes, contents: seq<u8>)
    requires z.Valid()
    ensures var r := ReadAt(z, contents, |contents|, true); r.filled == 0 && r.ended && r.pos == |contents|
  {
  }

  // Where a pipe stands after n calls, as long as the budget is not spent.
  ghost predicate PipeAt(z: Sizes, contents: seq<u8>, limit: int, n: nat, s: InputState)
    requires z.asked > 0
  {
    var calls, whole := CallsToEnd(z, |contents|, true, limit), WholeCalls(z, |contents|);
    && (s.finished <==> n >= calls)
    && |s.frames| == (if n < calls then n else PicturesToSend(z, |contents|, true, limit))
    && (forall k :: 0 <= k < |s.frames| ==> s.frames[k] == PipePicture(z, contents, k))
    && (n < calls && n <= whole ==>
          s.limit == limit && s.pos == Offset(n, Stretch(z)) && s.bytes == Offset(n, z.asked))
    && (n < calls && n > whole ==>
          s.limit == whole && s.pos == |contents| && s.bytes == Offset(whole, z.asked) + z.expected)
  }

  lemma {:induction false} PipeRuns(z: Sizes, contents: seq<u8>, limit: int, n: nat)
    requires z.Consistent() && limit != 0
    requires forall k: nat :: k < n && k < BudgetedCalls(z, |contents|, true, limit) ==>
      !SpentAfter(z, |contents|, true, limit, k)
    ensures CallsToEnd(z, |contents|, true, limit) > 0
    ensures PipeAt(z, contents, limit, n, Run(z, contents, true, limit, n))
    decreases n
  {
    hide ReadAt, WholeCalls, LastCalls, Offset, SpentAfter, Stretch, PipePicture;
    LastAtMost(z, |contents|);
    if n > 0 {
      PipeRuns(z, contents, limit, n - 1);
      PipeStep(z, contents, limit, n - 1, Run(z, contents, true, limit, n - 1));
    } else {
      OffsetNext(0, z.asked);
      OffsetNext(0, Stretch(z));
    }
  }

  lemma {:induction false} LastAtMost(z: Sizes, length: nat)
    requires z.asked > 0
    ensures LastCalls(z, length) <= 1 && (LastCalls(z, length) == 1 ==> z.asked != z.expected)
  {
  }

  lemma {:induction false} PipeStep(z: Sizes, contents: seq<u8>, limit: int, n: nat, s: InputState)
    requires z.Consistent() && limit != 0 && s.pos <= |contents| && PipeAt(z, contents, limit, n, s)
    requires n < BudgetedCalls(z, |contents|, true, limit) ==> !SpentAfter(z, |contents|, true, limit, n)
    ensures PipeAt(z, contents, limit, n + 1, InputStep(z, contents, true, false, s))
  {
    hide ReadAt, WholeCalls, LastCalls, Offset, SpentAfter, Stretch, Remaining, PipePicture;
    LastAtMost(z, |contents|);
    if !s.finished {
      if n <= WholeCalls(z, |contents|) {
        NotSpent(z, contents, limit, s, n);
        NextOfPipe(z, contents, n);
        OffsetNext(n, z.asked);
      } else {
        NeverSpentThen(z, WholeCalls(z, |contents|));
        AfterEnd(z, s, WholeCalls(z, |contents|));
        EndOfPipe(z, contents);
      }
    }
  }

  lemma {:induction false} AfterEnd(z: Sizes, s: InputState, k: nat)
    requires s.limit == k && k * z.budget != s.bytes
    ensures Remaining(z, s) != 0
  {
  }

  // A pipe: every whole picture is sent once, in order, up to the limit if there is one, the
  // partial one at the end is dropped, and the end of stream follows.
  lemma {:induction false} PipeSends(z: Sizes, contents: seq<u8>, limit: int, n: nat)
    requires z.Valid() && z.asked == z.expected && limit != 0
    requires forall k: nat :: k < n && k < CallsToEnd(z, |contents|, true, limit) ==>
        !SpentAfter(z, |contents|, true, limit, k)
    ensures
      var s, calls := Run(z, contents, true, limit, n), CallsToEnd(z, |contents|, true, limit);
      && 0 < calls && |s.frames| == (if n < calls then n else PicturesToSend(z, |contents|, true, limit))
           && (s.finished <==> n >= calls)
      && (!s.finished ==> s.limit == limit && s.pos == s.bytes == Offset(n, z.asked))
      && |s.frames| <= PictureCount(z.asked, |contents|)
      && forall k :: 0 <= k < |s.frames| ==> s.frames[k] == PictureAt(z, contents, k)
    decreases n
  {
    hide ReadAt, PictureAt, PictureCount, Offset, SpentAfter, CallsToEnd, PicturesToSend, BudgetedCalls, Remaining;
    WholeOnly(z, |contents|, limit);
    PictureFits(z.asked, |contents|, 0);
    if n > 0 {
      PipeSends(z, contents, limit, n - 1);
      var s := Run(z, contents, true, limit, n - 1);
      if !s.finished {
        NotSpent(z, contents, limit, s, n - 1);
        OffsetNext(n - 1, z.asked);
        NextFromPipe(z, contents, n - 1);
      }
    }
  }

  lemma {:induction false} NotSpent(z: Sizes, contents: seq<u8>, limit: int, s: InputState, k: nat)
    requires z.asked > 0 && s.limit == limit && s.bytes == Offset(k, z.asked)
        && !SpentAfter(z, |contents|, true, limit, k)
    ensures Remaining(z, s) != 0
  {
    hide Offset;
  }

  lemma {:induction false} WholeOnly(z: Sizes, length: nat, limit: int)
    requires z.Valid() && z.asked == z.expected
    ensures
      var count := PictureCount(z.asked, length);
      && PicturesToSend(z, length, true, limit) == (if limit < 0 || count < limit then count else limit)
      && CallsToEnd(z, length, true, limit) == BudgetedCalls(z, length, true, limit)
           == (if limit < 0 || count < limit then count + 1 else limit)
  {
  }

  // With no limit given.
  lemma {:induction false} PipeSendsAll(z: Sizes, contents: seq<u8>, n: nat)
    requires z.Valid() && z.asked == z.expected
    ensures
      var s, count := Run(z, contents, true, -1, n), PictureCount(z.asked, |contents|);
      && |s.frames| == Min(n, count) && (s.finished <==> n > count)
      && (!s.finished ==> s.limit == -1 && s.pos == Offset(n, z.asked))
      && forall k :: 0 <= k < |s.frames| ==> s.frames[k] == PictureAt(z, contents, k)
  {
    hide Run, PictureAt, PictureCount, Offset;
    PipeSends(z, contents, -1, n);
  }

  lemma {:induction false} NextFromPipe(z: Sizes, contents: seq<u8>, k: nat)
    requires z.asked == z.expected && z.asked > 0 && k <= PictureCount(z.asked, |contents|)
    ensures Offset(k, z.asked) <= |contents|
    ensures
      var r := ReadAt(z, contents, Offset(k, z.asked), true);
      if k < PictureCount(z.asked, |contents|) then
        r.filled == z.asked && !r.ended && r.data == PictureAt(z, contents, k) && r.pos == Offset(k + 1, z.asked)
      else r.filled == 0 && r.ended
  {
    hide Offset, ReadAt, PictureCount;
    var size, count := z.asked, PictureCount(z.asked, |contents|);
    PictureFits(size, |contents|, k);
    PictureFits(size, |contents|, if k == 0 then 0 else k - 1);
    if k < count {
      ReadWhole(z, contents, Offset(k, size));
    } else {
      ReadPastEnd(z, contents, Offset(k, size));
    }
  }

  lemma {:induction false} ReadPastEnd(z: Sizes, contents: seq<u8>, pos: nat)
    requires z.asked == z.expected && pos <= |contents| < pos + z.asked
    ensures var r := ReadAt(z, contents, pos, true); r.filled == 0 && r.ended && r.pos == |contents|
  {
  }
}
