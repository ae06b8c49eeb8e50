/** The eight-tap filters of high bit depth pictures: a sliding window of rows, and even and odd pixels apart. */
module Convolve {
  import opened Arithmetic
  import opened Filter
  import opened MachineInts
  import opened Plane
  import opened Simd

  // Rows of pixels in memory, from a first one on.
  datatype Rows = Rows(memory: seq<u16>, at: nat, stride: nat) {
    ghost predicate Has(w: nat, n: nat) { forall r :: 0 <= r < n ==> at + Offset(r, stride) + w <= |memory| }

    // The row starts at its offset.
    ghost predicate Starts(place: nat, r: nat) { place == at + Offset(r, stride) }

    function Further(c: nat): Rows { Rows(memory, at + c, stride) }
  }

  lemma {:induction false} HasFurther(p: Rows, w: nat, n: nat, c: nat, v: nat)
    requires p.Has(w, n) && c + v <= w
    ensures p.Further(c).Has(v, n)
  {
    hide Offset;
    forall r | 0 <= r < n
      ensures p.at + c + Offset(r, p.stride) + v <= |p.memory|
    {
      assert p.at + Offset(r, p.stride) + w <= |p.memory|;
    }
  }

  // Memory up to the end of the last row is enough.
  lemma {:induction false} HasWhen(p: Rows, w: nat, n: nat)
    ensures p.Has(w, n) <==> n == 0 || p.at + Offset(n - 1, p.stride) + w <= |p.memory|
  {
    hide Offset;
    if n > 0 && p.at + Offset(n - 1, p.stride) + w <= |p.memory| {
      forall r | 0 <= r < n
        ensures p.at + Offset(r, p.stride) + w <= |p.memory|
      {
        if r < n - 1 { OffsetsApart(r, n - 1, p.stride); }
      }
    }
  }

  lemma {:induction false} HasFewerRows(p: Rows, w: nat, n: nat, m: nat)
    requires p.Has(w, n) && m <= n
    ensures p.Has(w, m)
  {
    hide Offset;
  }

  // ----- what the filters are to compute -----

  ghost function Pixel(p: Rows, r: nat, c: nat): u16
    requires p.Has(c + 1, r + 1)
  {
    p.memory[p.at + Offset(r, p.stride) + c]
  }

  // Eight pixels below each other.
  ghost function Column(p: Rows, r: nat, c: nat): (x: seq<u16>)
    requires p.Has(c + 1, r + 8)
    ensures |x| == 8
  {
    [Pixel(p, r, c), Pixel(p, r + 1, c), Pixel(p, r + 2, c), Pixel(p, r + 3, c),
     Pixel(p, r + 4, c), Pixel(p, r + 5, c), Pixel(p, r + 6, c), Pixel(p, r + 7, c)]
  }

  // Eight pixels next to each other.
  ghost function Line(p: Rows, r: nat, c: nat): (x: seq<u16>)
    requires p.Has(c + 8, r + 1)
    ensures |x| == 8
  {
    Load(p.memory, p.at + Offset(r, p.stride) + c, 8)
  }

  ghost function VerticalRow(p: Rows, f: seq<int>, w: nat, bd: nat, r: nat): (row: seq<u16>)
    requires p.Has(w, r + 8) && |f| == 8
    ensures |row| == w
  {
    seq(w, c requires 0 <= c < w => RoundedOnce(f, Column(p, r, c), bd))
  }

  ghost function VerticalBlock(p: Rows, f: seq<int>, w: nat, h: nat, bd: nat): (rows: seq<seq<u16>>)
    requires p.Has(w, h + 7) && |f| == 8
    ensures |rows| == h && IsBlock(rows, w)
  {
    seq(h, r requires 0 <= r < h => VerticalRow(p, f, w, bd, r))
  }

  ghost function HorizontalRow(p: Rows, f: seq<int>, w: nat, round0: nat, bd: nat, r: nat): (row: seq<u16>)
    requires p.Has(w + 7, r + 1) && |f| == 8 && round0 <= FILTER_BITS
    ensures |row| == w
  {
    seq(w, c requires 0 <= c < w => RoundedTwice(f, Line(p, r, c), round0, bd))
  }

  ghost function HorizontalBlock(p: Rows, f: seq<int>, w: nat, h: nat, round0: nat, bd: nat): (rows: seq<seq<u16>>)
    requires p.Has(w + 7, h) && |f| == 8 && round0 <= FILTER_BITS
    ensures |rows| == h && IsBlock(rows, w)
  {
    seq(h, r requires 0 <= r < h => HorizontalRow(p, f, w, round0, bd, r))
  }

  lemma {:induction false} ColumnFurther(p: Rows, r: nat, c: nat, i: nat)
    requires p.Has(c + i + 1, r + 8)
    ensures p.Further(c).Has(i + 1, r + 8) && Column(p.Further(c), r, i) == Column(p, r, c + i)
  {
    hide Offset;
    HasFurther(p, c + i + 1, r + 8, c, i + 1);
  }

  // Some columns of a filtered block are the block filtered from there on.
  lemma {:induction false} VerticalColumns(p: Rows, f: seq<int>, w: nat, h: nat, bd: nat, c: nat, n: nat)
    requires p.Has(w, h + 7) && |f| == 8 && c + n <= w
    ensures p.Further(c).Has(n, h + 7)
    ensures ColumnsOf(VerticalBlock(p, f, w, h, bd), w, c, n) == VerticalBlock(p.Further(c), f, n, h, bd)
  {
    hide Offset, RoundedOnce;
    HasFurther(p, w, h + 7, c, n);
    var part, block := ColumnsOf(VerticalBlock(p, f, w, h, bd), w, c, n), VerticalBlock(p.Further(c), f, n, h, bd);
    forall r | 0 <= r < h
      ensures part[r] == block[r]
    {
      forall i | 0 <= i < n
        ensures part[r][i] == block[r][i]
      {
        ColumnFurther(p, r, c, i);
      }
    }
  }

  lemma {:induction false} HorizontalColumns(p: Rows, f: seq<int>, w: nat, h: nat, round0: nat, bd: nat, c: nat, n: nat)
    requires p.Has(w + 7, h) && |f| == 8 && round0 <= FILTER_BITS && c + n <= w
    ensures p.Further(c).Has(n + 7, h)
    ensures ColumnsOf(HorizontalBlock(p, f, w, h, round0, bd), w, c, n)
        == HorizontalBlock(p.Further(c), f, n, h, round0, bd)
  {
    hide Offset, RoundedTwice;
    HasFurther(p, w + 7, h, c, n + 7);
    var part, block := ColumnsOf(HorizontalBlock(p, f, w, h, round0, bd), w, c, n),
        HorizontalBlock(p.Further(c), f, n, h, round0, bd);
    forall r | 0 <= r < h
      ensures part[r] == block[r]
    {
      forall i | 0 <= i < n
        ensures part[r][i] == block[r][i]
      {
        assert Line(p, r, c + i) == Line(p.Further(c), r, i);
      }
    }
  }

  // ----- the window of rows -----

  // Eight pixels of row r, in the low half of a register.
  ghost predicate IsRow(x: seq<u16>, p: Rows, r: nat) {
    |x| == 8 && p.Has(8, r + 1) && x == Load(p.memory, p.at + Offset(r, p.stride), 8)
  }

  // Four pixels of rows r, r + 1 in pairs, and of rows r + 1, r + 2.
  ghost predicate ArePairs(s: seq<u16>, p: Rows, r: nat) {
    && |s| == 16 && p.Has(4, r + 3)
    && forall i :: 0 <= i < 4 ==>
      && s[2 * i] == Pixel(p, r, i) && s[2 * i + 1] == s[8 + 2 * i] == Pixel(p, r + 1, i)
           && s[9 + 2 * i] == Pixel(p, r + 2, i)
  }

  // The low halves of two registers, whose high halves are left from a cast.
  function Halves(a: seq<u16>, b: seq<u16>, junk: seq<u16>): (s: seq<u16>)
    requires |a| == |b| == |junk| == 8
    ensures |s| == 16
  {
    Permute2x128Lows(Cast128To256(a, junk), Cast128To256(b, junk))
  }

  lemma {:induction false} WindowPair(p: Rows, a: seq<u16>, b: seq<u16>, c: seq<u16>, junk: seq<u16>, r: nat)
    requires IsRow(a, p, r) && IsRow(b, p, r + 1) && IsRow(c, p, r + 2) && |junk| == 8
    ensures ArePairs(UnpackLo256(Halves(a, b, junk), Halves(b, c, junk)), p, r)
    ensures ArePairs(UnpackHi256(Halves(a, b, junk), Halves(b, c, junk)), p.Further(4), r)
  {
    hide Offset, UnpackLo256, UnpackHi256, IsRow, Pixel, Halves;
    WindowHalf(p, a, b, c, r);
    var lo, hi := UnpackLo256(Halves(a, b, junk), Halves(b, c, junk)),
        UnpackHi256(Halves(a, b, junk), Halves(b, c, junk));
    forall i | 0 <= i < 4
      ensures lo[2 * i] == Pixel(p, r, i) && lo[2 * i + 1] == lo[8 + 2 * i] == Pixel(p, r + 1, i)
          && lo[9 + 2 * i] == Pixel(p, r + 2, i)
      ensures var q := p.Further(4);
        hi[2 * i] == Pixel(q, r, i) && hi[2 * i + 1] == hi[8 + 2 * i] == Pixel(q, r + 1, i)
            && hi[9 + 2 * i] == Pixel(q, r + 2, i)
    {
      WindowPairAt(p, a, b, c, junk, r, i);
    }
  }

  lemma {:induction false} WindowHalf(p: Rows, a: seq<u16>, b: seq<u16>, c: seq<u16>, r: nat)
    requires IsRow(a, p, r) && IsRow(b, p, r + 1) && IsRow(c, p, r + 2)
    ensures |a| == |b| == |c| == 8 && p.Has(4, r + 3) && p.Further(4).Has(4, r + 3)
  {
    hide Offset;
    HasFurther(p, 8, r + 3, 4, 4);
    HasFurther(p, 8, r + 3, 0, 4);
  }

  lemma {:induction false} WindowPairAt(p: Rows, a: seq<u16>, b: seq<u16>, c: seq<u16>, junk: seq<u16>, r: nat, i: nat)
    requires IsRow(a, p, r) && IsRow(b, p, r + 1) && IsRow(c, p, r + 2) && |junk| == 8 && i < 4
    ensures p.Has(4, r + 3) && p.Further(4).Has(4, r + 3)
    ensures var s := UnpackLo256(Halves(a, b, junk), Halves(b, c, junk));
      s[2 * i] == Pixel(p, r, i) && s[2 * i + 1] == s[8 + 2 * i] == Pixel(p, r + 1, i)
          && s[9 + 2 * i] == Pixel(p, r + 2, i)
    ensures var s, q := UnpackHi256(Halves(a, b, junk), Halves(b, c, junk)), p.Further(4);
      s[2 * i] == Pixel(q, r, i) && s[2 * i + 1] == s[8 + 2 * i] == Pixel(q, r + 1, i)
          && s[9 + 2 * i] == Pixel(q, r + 2, i)
  {
    hide Offset, UnpackLo256, UnpackHi256, IsRow, Pixel;
    WindowHalf(p, a, b, c, r);
    var x, y := Halves(a, b, junk), Halves(b, c, junk);
    assert x == a + b && y == b + c;
    UnpackedWordsAt(x, y, i);
    RowPixels(p, a, r, i);
    RowPixels(p, b, r + 1, i);
    RowPixels(p, c, r + 2, i);
  }

  lemma {:induction false} RowPixels(p: Rows, a: seq<u16>, r: nat, i: nat)
    requires IsRow(a, p, r) && i < 4
    ensures p.Further(4).Has(4, r + 1) && p.Has(4, r + 1)
    ensures a[i] == Pixel(p, r, i) && a[4 + i] == Pixel(p.Further(4), r, i)
  {
    hide Offset;
    HasFurther(p, 8, r + 1, 4, 4);
    HasFurther(p, 8, r + 1, 0, 4);
  }

  // ----- two rows of the vertical filter -----

  function TwoRows(low: seq<seq<u16>>, high: seq<seq<u16>>, c: seq<u16>, most: u16): (r: seq<u16>)
    requires |low| == |high| == 4 && |c| == 8
    requires |low[0]| == |low[1]| == |low[2]| == |low[3]| == 16
        && |high[0]| == |high[1]| == |high[2]| == |high[3]| == 16
    ensures |r| == 16
  {
    ClipEpi16(PacksEpi32(RoundEpi32(Convolve16(low, c), FILTER_BITS), RoundEpi32(Convolve16(high, c), FILTER_BITS)),
              most)
  }

  // Four registers hold eight rows from row r on, and eight from the next.
  ghost predicate IsWindow(s: seq<seq<u16>>, p: Rows, r: nat) {
    |s| == 4 && ArePairs(s[0], p, r) && ArePairs(s[1], p, r + 2) && ArePairs(s[2], p, r + 4) && ArePairs(s[3], p, r + 6)
  }

  lemma {:induction false} WindowLanes(s: seq<seq<u16>>, p: Rows, r: nat, c: seq<u16>, i: nat)
    requires IsWindow(s, p, r) && |c| == 8 && i < 4
    ensures p.Has(i + 1, r + 9)
    ensures Convolve16(s, c)[i] == DotLane(Column(p, r, i), c)
        && Convolve16(s, c)[4 + i] == DotLane(Column(p, r + 1, i), c)
  {
    hide Convolve16, DotLane, Pixel, Offset;
    HasFurther(p, 4, r + 9, 0, i + 1);
    Convolve16At(s, c, i);
    Convolve16At(s, c, 4 + i);
  }

  lemma {:induction false} LowPixels(low: seq<seq<u16>>, high: seq<seq<u16>>, p: Rows, f: seq<int>, bd: nat, r: nat,
                                     i: nat)
    requires IsWindow(low, p, r) && |high| == 4 && |high[0]| == |high[1]| == |high[2]| == |high[3]| == 16
    requires Taps(f) && Small(p.memory) && i < 4
    ensures p.Has(i + 1, r + 9)
    ensures
      var t := TwoRows(low, high, Stored(f), MaxPixel(bd));
      t[i] == RoundedOnce(f, Column(p, r, i), bd) && t[8 + i] == RoundedOnce(f, Column(p, r + 1, i), bd)
  {
    hide Convolve16, DotLane, Column, Offset, IsWindow, PixelLane, RoundLane, RoundEpi32, PacksEpi32, ClipEpi16,
        RoundedOnce, Stored;
    var c := Stored(f);
    WindowHas(low, p, r);
    WindowLanes(low, p, r, c, i);
    LanePixels(RoundEpi32(Convolve16(low, c), FILTER_BITS), RoundEpi32(Convolve16(high, c), FILTER_BITS), MaxPixel(bd),
               i);
    RoundEpi32At(Convolve16(low, c), FILTER_BITS, i);
    RoundEpi32At(Convolve16(low, c), FILTER_BITS, 4 + i);
    SmallColumn(p, r, i);
    SmallColumn(p, r + 1, i);
    OnceExact(f, Column(p, r, i), bd);
    OnceExact(f, Column(p, r + 1, i), bd);
  }

  lemma {:induction false} HighPixels(low: seq<seq<u16>>, high: seq<seq<u16>>, p: Rows, f: seq<int>, bd: nat, r: nat,
                                      i: nat)
    requires IsWindow(high, p, r) && |low| == 4 && |low[0]| == |low[1]| == |low[2]| == |low[3]| == 16
    requires Taps(f) && Small(p.memory) && i < 4
    ensures p.Has(i + 1, r + 9)
    ensures
      var t := TwoRows(low, high, Stored(f), MaxPixel(bd));
      t[4 + i] == RoundedOnce(f, Column(p, r, i), bd) && t[12 + i] == RoundedOnce(f, Column(p, r + 1, i), bd)
  {
    hide Convolve16, DotLane, Column, Offset, IsWindow, PixelLane, RoundLane, RoundEpi32, PacksEpi32, ClipEpi16,
        RoundedOnce, Stored;
    var c := Stored(f);
    WindowHas(high, p, r);
    WindowLanes(high, p, r, c, i);
    LanePixels(RoundEpi32(Convolve16(low, c), FILTER_BITS), RoundEpi32(Convolve16(high, c), FILTER_BITS), MaxPixel(bd),
               i);
    RoundEpi32At(Convolve16(high, c), FILTER_BITS, i);
    RoundEpi32At(Convolve16(high, c), FILTER_BITS, 4 + i);
    SmallColumn(p, r, i);
    SmallColumn(p, r + 1, i);
    OnceExact(f, Column(p, r, i), bd);
    OnceExact(f, Column(p, r + 1, i), bd);
  }

  lemma {:induction false} SmallColumn(p: Rows, r: nat, c: nat)
    requires p.Has(c + 1, r + 8) && Small(p.memory)
    ensures Small(Column(p, r, c))
  {
    hide Offset;
  }

  lemma {:induction false} LanePixels(a: seq<u32>, b: seq<u32>, most: u16, i: nat)
    requires |a| == |b| == 8 && i < 4
    ensures
      var t := ClipEpi16(PacksEpi32(a, b), most);
      t[i] == PixelLane(a[i], most) && t[4 + i] == PixelLane(b[i], most)
      && t[8 + i] == PixelLane(a[4 + i], most) && t[12 + i] == PixelLane(b[4 + i], most)
  {
    hide PacksEpi32, ClipEpi16, PackDword, MaxSignedLane, MinSignedLane;
    PackedDwordsAt(a, b, i);
    ClipEpi16At(PacksEpi32(a, b), most, i);
    ClipEpi16At(PacksEpi32(a, b), most, 4 + i);
    ClipEpi16At(PacksEpi32(a, b), most, 8 + i);
    ClipEpi16At(PacksEpi32(a, b), most, 12 + i);
  }

  // Eight columns, or the first n of at most four.
  lemma {:induction false} TwoRowsAre(low: seq<seq<u16>>, high: seq<seq<u16>>, p: Rows, f: seq<int>, n: nat, bd: nat,
                                      r: nat)
    requires IsWindow(low, p, r) && (n == 8 || n <= 4)
    requires n == 8 ==> p.Has(8, r + 9) && IsWindow(high, p.Further(4), r)
    requires n <= 4 ==> high == low
    requires Taps(f) && Small(p.memory)
    ensures p.Has(n, r + 9)
    ensures
      var t := TwoRows(low, high, Stored(f), MaxPixel(bd));
      t[..n] == VerticalRow(p, f, n, bd, r) && t[8..8 + n] == VerticalRow(p, f, n, bd, r + 1)
  {
    hide IsWindow, TwoRows, RoundedOnce, Column, Offset, Small;
    WindowHas(low, p, r);
    if n == 8 {
      WindowHas(high, p.Further(4), r);
    }
    HasFurther(p, if n == 8 then 8 else 4, r + 9, 0, n);
    var t := TwoRows(low, high, Stored(f), MaxPixel(bd));
    var row, next := VerticalRow(p, f, n, bd, r), VerticalRow(p, f, n, bd, r + 1);
    forall i | 0 <= i < n
      ensures t[i] == row[i] && t[8 + i] == next[i]
    {
      if i < 4 {
        LowPixels(low, high, p, f, bd, r, i);
      } else {
        HighPixels(low, high, p.Further(4), f, bd, r, i - 4);
        ColumnFurther(p, r, 4, i - 4);
        ColumnFurther(p, r + 1, 4, i - 4);
      }
    }
  }

  lemma {:induction false} WindowHas(s: seq<seq<u16>>, p: Rows, r: nat)
    requires IsWindow(s, p, r)
    ensures |s| == 4 && |s[0]| == |s[1]| == |s[2]| == |s[3]| == 16 && p.Has(4, r + 9)
  {
    hide Offset, Pixel;
  }

  // ----- the vertical filter -----

  function LoadRow(p: Rows, place: nat): (x: seq<u16>)
    requires place + 8 <= |p.memory|
    ensures |x| == 8
  {
    Load(p.memory, place, 8)
  }

  lemma {:induction false} RowPlace(p: Rows, n: nat, r: nat)
    requires p.Has(8, n) && r < n
    ensures p.at + Offset(r, p.stride) + 8 <= |p.memory| && IsRow(LoadRow(p, p.at + Offset(r, p.stride)), p, r)
  {
  }

  lemma {:induction false} OffsetAdds(r: nat, k: nat, stride: nat)
    ensures Offset(r + k, stride) == Offset(r, stride) + k * stride
  {
    assert (r + k) * stride == r * stride + k * stride;
  }

  // The row k rows further on.
  lemma {:induction false} RowAfter(p: Rows, n: nat, r: nat, k: nat)
    requires p.Has(8, n) && r + k < n
    ensures
      var place := p.at + Offset(r, p.stride) + k * p.stride;
      place + 8 <= |p.memory| && IsRow(LoadRow(p, place), p, r + k)
  {
    hide Offset, LoadRow, IsRow;
    OffsetAdds(r, k, p.stride);
    RowPlace(p, n, r + k);
  }

  function LowPair(a: seq<u16>, b: seq<u16>, c: seq<u16>, junk: seq<u16>): (s: seq<u16>)
    requires |a| == |b| == |c| == |junk| == 8
    ensures |s| == 16
  {
    UnpackLo256(Halves(a, b, junk), Halves(b, c, junk))
  }

  function HighPair(a: seq<u16>, b: seq<u16>, c: seq<u16>, junk: seq<u16>): (s: seq<u16>)
    requires |a| == |b| == |c| == |junk| == 8
    ensures |s| == 16
  {
    UnpackHi256(Halves(a, b, junk), Halves(b, c, junk))
  }

  lemma {:induction false} PairAt(p: Rows, n: nat, r: nat, k: nat, junk: seq<u16>)
    requires p.Has(8, n) && r + k + 2 < n && |junk| == 8
    ensures
      var place := p.at + Offset(r, p.stride) + k * p.stride;
      && place + 8 <= |p.memory| && place + p.stride + 8 <= |p.memory| && place + 2 * p.stride + 8 <= |p.memory|
      && var a, b, c := LoadRow(p, place), LoadRow(p, place + p.stride), LoadRow(p, place + 2 * p.stride);
      && ArePairs(LowPair(a, b, c, junk), p, r + k) && ArePairs(HighPair(a, b, c, junk), p.Further(4), r + k)
      && IsRow(c, p, r + k + 2)
  {
    hide Offset, LoadRow, IsRow, ArePairs;
    RowAfter(p, n, r, k);
    RowAfter(p, n, r, k + 1);
    RowAfter(p, n, r, k + 2);
    var place := p.at + Offset(r, p.stride) + k * p.stride;
    assert (k + 1) * p.stride == k * p.stride + p.stride && (k + 2) * p.stride == k * p.stride + 2 * p.stride;
    WindowPair(p, LoadRow(p, place), LoadRow(p, place + p.stride), LoadRow(p, place + 2 * p.stride), junk, r + k);
  }

  // Registers 0 to 2 hold rows i to i + 6 in pairs, 4 to 6 the columns from four on.
  ghost predicate HoldsRows(s: seq<seq<u16>>, p: Rows, i: nat) {
    && |s| == 8 && (forall k :: 0 <= k < 8 ==> |s[k]| == 16)
    && ArePairs(s[0], p, i) && ArePairs(s[1], p, i + 2) && ArePairs(s[2], p, i + 4)
    && ArePairs(s[4], p.Further(4), i) && ArePairs(s[5], p.Further(4), i + 2) && ArePairs(s[6], p.Further(4), i + 4)
  }

  // The first seven rows, in pairs.
  method FirstWindow(p: Rows, h: nat, junk: seq<u16>) returns (s: seq<seq<u16>>, src6: seq<u16>)
    requires p.Has(8, h + 7) && |junk| == 8
    ensures HoldsRows(s, p, 0) && IsRow(src6, p, 6)
  {
    hide Offset, LowPair, HighPair, ArePairs, IsRow, LoadRow;
    OffsetNext(0, p.stride);
    PairAt(p, h + 7, 0, 0, junk);
    PairAt(p, h + 7, 0, 2, junk);
    PairAt(p, h + 7, 0, 4, junk);
    var x0, x1, x2 := LoadRow(p, p.at), LoadRow(p, p.at + p.stride), LoadRow(p, p.at + 2 * p.stride);
    var x3, x4, x5 := LoadRow(p, p.at + 3 * p.stride), LoadRow(p, p.at + 4 * p.stride), LoadRow(p, p.at + 5 * p.stride);
    src6 := LoadRow(p, p.at + 6 * p.stride);
    var none: seq<u16> := Set1(0, 16);
    s := [LowPair(x0, x1, x2, junk), LowPair(x2, x3, x4, junk), LowPair(x4, x5, src6, junk), none,
          HighPair(x0, x1, x2, junk), HighPair(x2, x3, x4, junk), HighPair(x4, x5, src6, junk), none];
  }

  // The seventh and eighth row after row i join the window.
  method NextRows(p: Rows, h: nat, i: nat, place: nat, s: seq<seq<u16>>, src6: seq<u16>, junk: seq<u16>)
    returns (t: seq<seq<u16>>, src8: seq<u16>)
    requires p.Has(8, h + 7) && |junk| == 8 && i + 2 <= h && HoldsRows(s, p, i) && IsRow(src6, p, i + 6)
        && p.Starts(place, i)
    ensures |t| == 8 && IsWindow(t[..4], p, i) && IsWindow(t[4..], p.Further(4), i) && IsRow(src8, p, i + 8)
  {
    hide Offset, LowPair, HighPair, ArePairs, IsRow, LoadRow;
    PairAt(p, h + 7, i, 6, junk);
    SameRow(src6, p, i + 6, LoadRow(p, place + 6 * p.stride));
    RowAfter(p, h + 7, i, 6);
    var x7 := LoadRow(p, place + 7 * p.stride);
    src8 := LoadRow(p, place + 8 * p.stride);
    t := s[3 := LowPair(src6, x7, src8, junk)][7 := HighPair(src6, x7, src8, junk)];
  }

  lemma {:induction false} SameRow(x: seq<u16>, p: Rows, r: nat, y: seq<u16>)
    requires IsRow(x, p, r)
    ensures IsRow(y, p, r) ==> x == y
  {
    hide Offset;
  }

  // Two steps down: the last registers move to the front.
  lemma {:induction false} WindowMoves(t: seq<seq<u16>>, p: Rows, i: nat)
    requires |t| == 8 && IsWindow(t[..4], p, i) && IsWindow(t[4..], p.Further(4), i)
    ensures HoldsRows([t[1], t[2], t[3], t[3], t[5], t[6], t[7], t[7]], p, i + 2)
  {
    hide Offset, Pixel;
    WindowHas(t[..4], p, i);
    WindowHas(t[4..], p.Further(4), i);
  }

  // Eight columns, or the first two or four.
  method VerticalColumnsTo(dst: array<u16>, at: nat, stride: nat, p: Rows, f: seq<int>, n: nat, h: nat, bd: nat,
                           junk: seq<u16>)
    requires Taps(f) && Small(p.memory) && |junk| == 8 && n in {2, 4, 8} && h % 2 == 0
    requires p.Has(8, h + 7) && Fits(dst.Length, at, stride, n, h)
    modifies dst
    ensures p.Has(n, h + 7) && dst[..] == PutRows(old(dst[..]), at, stride, n, VerticalBlock(p, f, n, h, bd))
  {
    hide Offset, ArePairs, IsRow, Small, Put, PutRows, Rows.Has, VerticalRow, TwoRows, HoldsRows, IsWindow;
    HasFurther(p, 8, h + 7, 0, n);
    ghost var rows := VerticalBlock(p, f, n, h, bd);
    WrittenNone(dst[..], at, stride, n, rows);
    var s, src6 := FirstWindow(p, h, junk);
    var place: nat, to: nat := p.at, at;
    OffsetNext(0, p.stride);
    var i := 0;
    while i < h
      invariant i <= h && i % 2 == 0 && p.Starts(place, i) && to == at + Offset(i, stride)
      invariant HoldsRows(s, p, i) && IsRow(src6, p, i + 6)
      invariant Written(dst[..], old(dst[..]), at, stride, n, rows, i)
    {
      var t, src8 := NextRows(p, h, i, place, s, src6, junk);
      WindowHas(t[..4], p, i);
      WindowHas(t[4..], p.Further(4), i);
      HasFewerRows(p, 8, h + 7, i + 9);
      var r := TwoRows(t[..4], if n == 8 then t[4..] else t[..4], Stored(f), MaxPixel(bd));
      TwoRowsAre(t[..4], if n == 8 then t[4..] else t[..4], p, f, n, bd, i);
      WrittenNext(dst[..], old(dst[..]), at, stride, n, rows, i);
      Store(dst, to, r[..n]);
      WrittenNext(dst[..], old(dst[..]), at, stride, n, rows, i + 1);
      Store(dst, to + stride, r[8..8 + n]);
      WindowMoves(t, p, i);
      s, src6 := [t[1], t[2], t[3], t[3], t[5], t[6], t[7], t[7]], src8;
      OffsetNext(i, p.stride);
      OffsetNext(i + 1, p.stride);
      place, to, i := place + 2 * p.stride, to + 2 * stride, i + 2;
    }
    WrittenAll(dst[..], old(dst[..]), at, stride, n, rows);
  }

  // The widths the kernels store correctly; others are not used.
  predicate Width(w: nat) { w == 2 || w == 4 || w % 8 == 0 }

  // Vectors of eight columns reach this far.
  function RoundUp(w: nat): nat { (w + 7) / 8 * 8 }

  /** Every pixel is the clipped, rounded dot product of its column; src is three rows below the first one read. */
  method ConvolveVertical(dst: array<u16>, at: nat, dstStride: nat, memory: seq<u16>, src: nat, srcStride: nat,
                          f: seq<int>, w: nat, h: nat, bd: nat, junk: seq<u16>)
    requires src >= 3 * srcStride && Taps(f) && Small(memory) && |junk| == 8 && Width(w) && h % 2 == 0
    requires Rows(memory, src - 3 * srcStride, srcStride).Has(RoundUp(w), h + 7)
        && Fits(dst.Length, at, dstStride, w, h)
    modifies dst
    ensures
      var p := Rows(memory, src - 3 * srcStride, srcStride);
      p.Has(w, h + 7) && dst[..] == PutRows(old(dst[..]), at, dstStride, w, VerticalBlock(p, f, w, h, bd))
  {
    hide Small, PutRows, Rows.Has, VerticalBlock, Fits, ColumnsOf;
    var p := Rows(memory, src - 3 * srcStride, srcStride);
    HasColumns(p, RoundUp(w), h + 7, w);
    ghost var rows := VerticalBlock(p, f, w, h, bd);
    ColumnEnds(dst[..], at, dstStride, w, rows);
    var j := 0;
    while j < w
      invariant j == 0 || j == RoundUp(j) <= w || (j == 8 && w < 8)
      invariant Fits(dst.Length, at, dstStride, Min(j, w), h)
      invariant dst[..] == PutRows(old(dst[..]), at, dstStride, Min(j, w), ColumnsOf(rows, w, 0, Min(j, w)))
    {
      var n := if w - j > 4 then 8 else w;
      PutNextColumns(old(dst[..]), at, dstStride, w, rows, j, n);
      VerticalColumns(p, f, w, h, bd, j, n);
      HasFurther(p, RoundUp(w), h + 7, j, 8);
      VerticalColumnsTo(dst, at + j, dstStride, p.Further(j), f, n, h, bd, junk);
      j := j + 8;
    }
  }

  lemma {:induction false} HasColumns(p: Rows, w: nat, n: nat, v: nat)
    requires p.Has(w, n) && v <= w
    ensures p.Has(v, n)
  {
    HasFurther(p, w, n, 0, v);
  }

  // ----- two rows of the horizontal filter -----

  // alignr_epi8 by n words: each half of one register followed by that of another, from word n on.
  function Alignr(r1: seq<u16>, r0: seq<u16>, n: nat): (s: seq<u16>)
    requires |r1| == |r0| == 16 && n <= 8
    ensures |s| == 16
  {
    (r0[..8] + r1[..8])[n..n + 8] + (r0[8..] + r1[8..])[n..n + 8]
  }

  lemma {:induction false} AlignedRows(row0: seq<u16>, row1: seq<u16>, n: nat, i: nat)
    requires |row0| == |row1| == 16 && n <= 8 && i < 8
    ensures
      var s := Alignr(Permute2x128Highs(row0, row1), Permute2x128Lows(row0, row1), n);
      s[i] == row0[n + i] && s[8 + i] == row1[n + i]
  {
    var r0, r1 := Permute2x128Lows(row0, row1), Permute2x128Highs(row0, row1);
    assert r0[..8] + r1[..8] == row0 && r0[8..] + r1[8..] == row1;
  }

  // The registers of the even pixels, and with n == 1 of the odd ones.
  function Shifted(row0: seq<u16>, row1: seq<u16>, n: nat): (s: seq<seq<u16>>)
    requires |row0| == |row1| == 16 && n <= 1
    ensures |s| == 4 && |s[0]| == |s[1]| == |s[2]| == |s[3]| == 16
  {
    var r0, r1 := Permute2x128Lows(row0, row1), Permute2x128Highs(row0, row1);
    [Alignr(r1, r0, n), Alignr(r1, r0, n + 2), Alignr(r1, r0, n + 4), Alignr(r1, r0, n + 6)]
  }

  lemma {:induction false} ShiftedLanes(row0: seq<u16>, row1: seq<u16>, n: nat, c: seq<u16>, i: nat)
    requires |row0| == |row1| == 16 && n <= 1 && |c| == 8 && i < 4
    ensures
      var s := Convolve16(Shifted(row0, row1, n), c);
      s[i] == DotLane(Eight(row0, n + 2 * i), c) && s[4 + i] == DotLane(Eight(row1, n + 2 * i), c)
  {
    hide Convolve16, DotLane, Alignr, Permute2x128Lows, Permute2x128Highs;
    var s := Shifted(row0, row1, n);
    Convolve16At(s, c, i);
    Convolve16At(s, c, 4 + i);
    AlignedPair(row0, row1, n, i);
    AlignedPair(row0, row1, n + 2, i);
    AlignedPair(row0, row1, n + 4, i);
    AlignedPair(row0, row1, n + 6, i);
  }

  lemma {:induction false} AlignedPair(row0: seq<u16>, row1: seq<u16>, n: nat, i: nat)
    requires |row0| == |row1| == 16 && n <= 8 && i < 4
    ensures
      var s := Alignr(Permute2x128Highs(row0, row1), Permute2x128Lows(row0, row1), n);
      && s[2 * i] == row0[n + 2 * i] && s[2 * i + 1] == row0[n + 2 * i + 1]
      && s[8 + 2 * i] == row1[n + 2 * i] && s[9 + 2 * i] == row1[n + 2 * i + 1]
  {
    hide Alignr, Permute2x128Lows, Permute2x128Highs;
    AlignedRows(row0, row1, n, 2 * i);
    AlignedRows(row0, row1, n, 2 * i + 1);
  }

  function Eight(row: seq<u16>, n: nat): (x: seq<u16>)
    requires n + 8 <= |row|
    ensures |x| == 8
  {
    [row[n], row[n + 1], row[n + 2], row[n + 3], row[n + 4], row[n + 5], row[n + 6], row[n + 7]]
  }

  function Rounded(s: seq<u32>, round0: nat): (r: seq<u32>)
    requires |s| == 8 && round0 <= FILTER_BITS
    ensures |r| == 8
  {
    RoundEpi32(RoundEpi32(s, round0), FILTER_BITS - round0)
  }

  // Even and odd pixels, each packed twice over, interleaved and clipped.
  function Zipped(even: seq<u32>, odd: seq<u32>, most: u16): (r: seq<u16>)
    requires |even| == |odd| == 8
    ensures |r| == 16
  {
    ClipEpi16(UnpackLo256(PacksEpi32(even, even), PacksEpi32(odd, odd)), most)
  }

  lemma {:induction false} ZippedAt(even: seq<u32>, odd: seq<u32>, most: u16, i: nat)
    requires |even| == |odd| == 8 && i < 4
    ensures
      var r := Zipped(even, odd, most);
      && r[2 * i] == PixelLane(even[i], most) && r[2 * i + 1] == PixelLane(odd[i], most)
      && r[8 + 2 * i] == PixelLane(even[4 + i], most) && r[9 + 2 * i] == PixelLane(odd[4 + i], most)
  {
    hide PacksEpi32, UnpackLo256, ClipEpi16, PackDword, MaxSignedLane, MinSignedLane;
    PackedDwordsAt(even, even, i);
    PackedDwordsAt(odd, odd, i);
    var e, o := PacksEpi32(even, even), PacksEpi32(odd, odd);
    UnpackedWordsAt(e, o, i);
    var z := UnpackLo256(e, o);
    ClipEpi16At(z, most, 2 * i);
    ClipEpi16At(z, most, 2 * i + 1);
    ClipEpi16At(z, most, 8 + 2 * i);
    ClipEpi16At(z, most, 9 + 2 * i);
  }

  function TwoLines(row0: seq<u16>, row1: seq<u16>, c: seq<u16>, round0: nat, most: u16): (r: seq<u16>)
    requires |row0| == |row1| == 16 && |c| == 8 && round0 <= FILTER_BITS
    ensures |r| == 16
  {
    Zipped(Rounded(Convolve16(Shifted(row0, row1, 0), c), round0),
           Rounded(Convolve16(Shifted(row0, row1, 1), c), round0), most)
  }

  // One pixel: word n of the vector is the pixel of the eight words from n on.
  lemma {:induction false} LinePixel(row0: seq<u16>, row1: seq<u16>, f: seq<int>, round0: nat, bd: nat, n: nat, i: nat)
    requires |row0| == |row1| == 16 && Taps(f) && Small(row0) && Small(row1) && round0 <= FILTER_BITS && n <= 1 && i < 4
    ensures
      var s := Rounded(Convolve16(Shifted(row0, row1, n), Stored(f)), round0);
      && PixelLane(s[i], MaxPixel(bd)) == RoundedTwice(f, Eight(row0, n + 2 * i), round0, bd)
      && PixelLane(s[4 + i], MaxPixel(bd)) == RoundedTwice(f, Eight(row1, n + 2 * i), round0, bd)
  {
    hide Convolve16, Shifted, RoundEpi32, RoundLane, PixelLane, DotLane, RoundedTwice, Stored;
    var c := Stored(f);
    var s := Convolve16(Shifted(row0, row1, n), c);
    ShiftedLanes(row0, row1, n, c, i);
    RoundEpi32At(s, round0, i);
    RoundEpi32At(s, round0, 4 + i);
    RoundEpi32At(RoundEpi32(s, round0), FILTER_BITS - round0, i);
    RoundEpi32At(RoundEpi32(s, round0), FILTER_BITS - round0, 4 + i);
    SmallEight(row0, n + 2 * i);
    SmallEight(row1, n + 2 * i);
    TwiceExact(f, Eight(row0, n + 2 * i), round0, bd);
    TwiceExact(f, Eight(row1, n + 2 * i), round0, bd);
  }

  lemma {:induction false} SmallEight(row: seq<u16>, n: nat)
    requires n + 8 <= |row| && Small(row)
    ensures Small(Eight(row, n))
  {
  }

  lemma {:induction false} TwoLinesAt(row0: seq<u16>, row1: seq<u16>, f: seq<int>, round0: nat, bd: nat, j: nat)
    requires |row0| == |row1| == 16 && Taps(f) && Small(row0) && Small(row1) && round0 <= FILTER_BITS && j < 8
    ensures
      var t := TwoLines(row0, row1, Stored(f), round0, MaxPixel(bd));
      && t[j] == RoundedTwice(f, Eight(row0, j), round0, bd) && t[8 + j] == RoundedTwice(f, Eight(row1, j), round0, bd)
  {
    hide Convolve16, Shifted, Rounded, Zipped, PixelLane, RoundedTwice, Stored, Eight, Small;
    var c, i := Stored(f), j / 2;
    LinePixel(row0, row1, f, round0, bd, j % 2, i);
    ZippedAt(Rounded(Convolve16(Shifted(row0, row1, 0), c), round0),
             Rounded(Convolve16(Shifted(row0, row1, 1), c), round0), MaxPixel(bd), i);
    assert j == j % 2 + 2 * i;
  }

  // ----- the horizontal filter -----

  // Sixteen pixels of a row.
  ghost predicate IsWideRow(x: seq<u16>, p: Rows, r: nat) {
    |x| == 16 && p.Has(16, r + 1) && x == Load(p.memory, p.at + Offset(r, p.stride), 16)
  }

  lemma {:induction false} RowsFiltered(x: seq<u16>, y: seq<u16>, p: Rows, f: seq<int>, n: nat, round0: nat, bd: nat,
                                        r: nat)
    requires IsWideRow(x, p, r) && IsWideRow(y, p, r + 1) && Taps(f) && Small(p.memory) && round0 <= FILTER_BITS
        && n <= 8
    ensures p.Has(n + 7, r + 2)
    ensures
      var t := TwoLines(x, y, Stored(f), round0, MaxPixel(bd));
      && t[..n] == HorizontalRow(p, f, n, round0, bd, r) && t[8..8 + n] == HorizontalRow(p, f, n, round0, bd, r + 1)
  {
    hide TwoLines, RoundedTwice, Offset, Eight, Small, Line;
    HasColumns(p, 16, r + 2, n + 7);
    SmallRow(x, p, r);
    SmallRow(y, p, r + 1);
    var t := TwoLines(x, y, Stored(f), round0, MaxPixel(bd));
    var row, next := HorizontalRow(p, f, n, round0, bd, r), HorizontalRow(p, f, n, round0, bd, r + 1);
    forall j | 0 <= j < n
      ensures t[j] == row[j] && t[8 + j] == next[j]
    {
      TwoLinesAt(x, y, f, round0, bd, j);
      LineIsEight(x, p, r, j);
      LineIsEight(y, p, r + 1, j);
    }
  }

  lemma {:induction false} SmallRow(x: seq<u16>, p: Rows, r: nat)
    requires IsWideRow(x, p, r) && Small(p.memory)
    ensures Small(x)
  {
    hide Offset;
  }

  lemma {:induction false} LineIsEight(x: seq<u16>, p: Rows, r: nat, c: nat)
    requires IsWideRow(x, p, r) && c < 8
    ensures p.Has(c + 8, r + 1) && Line(p, r, c) == Eight(x, c)
  {
    hide Offset;
    HasColumns(p, 16, r + 1, c + 8);
    LoadPart(p.memory, p.at + Offset(r, p.stride), 16, c, 8);
    assert x[c..c + 8] == Eight(x, c);
  }

  lemma {:induction false} WideRowPlace(p: Rows, n: nat, r: nat)
    requires p.Has(16, n) && r < n
    ensures
      var place := p.at + Offset(r, p.stride);
      place + 16 <= |p.memory| && IsWideRow(Load(p.memory, place, 16), p, r)
  {
  }

  // Eight columns, or the first two or four.
  method HorizontalColumnsTo(dst: array<u16>, at: nat, stride: nat, p: Rows, f: seq<int>, n: nat, h: nat, round0: nat,
                             bd: nat)
    requires Taps(f) && Small(p.memory) && n in {2, 4, 8} && h % 2 == 0 && round0 <= FILTER_BITS
    requires p.Has(16, h) && Fits(dst.Length, at, stride, n, h)
    modifies dst
    ensures p.Has(n + 7, h) && dst[..] == PutRows(old(dst[..]), at, stride, n, HorizontalBlock(p, f, n, h, round0, bd))
  {
    hide Offset, IsWideRow, Small, Put, PutRows, Rows.Has, HorizontalRow, TwoLines, Load;
    HasColumns(p, 16, h, n + 7);
    ghost var rows := HorizontalBlock(p, f, n, h, round0, bd);
    WrittenNone(dst[..], at, stride, n, rows);
    var place: nat, to: nat := p.at, at;
    OffsetNext(0, p.stride);
    var i := 0;
    while i < h
      invariant i <= h && i % 2 == 0 && p.Starts(place, i) && to == at + Offset(i, stride)
      invariant Written(dst[..], old(dst[..]), at, stride, n, rows, i)
    {
      OffsetNext(i, p.stride);
      OffsetNext(i + 1, p.stride);
      WideRowPlace(p, h, i);
      WideRowPlace(p, h, i + 1);
      var x, y := Load(p.memory, place, 16), Load(p.memory, place + p.stride, 16);
      var r := TwoLines(x, y, Stored(f), round0, MaxPixel(bd));
      RowsFiltered(x, y, p, f, n, round0, bd, i);
      WrittenNext(dst[..], old(dst[..]), at, stride, n, rows, i);
      Store(dst, to, r[..n]);
      WrittenNext(dst[..], old(dst[..]), at, stride, n, rows, i + 1);
      Store(dst, to + stride, r[8..8 + n]);
      place, to, i := place + 2 * p.stride, to + 2 * stride, i + 2;
    }
    WrittenAll(dst[..], old(dst[..]), at, stride, n, rows);
  }

  /** Every pixel is the clipped, twice rounded dot product of its row; src is three pixels past the first one read. */
  method ConvolveHorizontal(dst: array<u16>, at: nat, dstStride: nat, memory: seq<u16>, src: nat, srcStride: nat,
                            f: seq<int>, w: nat, h: nat, round0: nat, bd: nat)
    requires src >= 3 && Taps(f) && Small(memory) && Width(w) && h % 2 == 0 && round0 <= FILTER_BITS
    requires Rows(memory, src - 3, srcStride).Has(RoundUp(w) + 8, h) && Fits(dst.Length, at, dstStride, w, h)
    modifies dst
    ensures
      var p := Rows(memory, src - 3, srcStride);
      p.Has(w + 7, h) && dst[..] == PutRows(old(dst[..]), at, dstStride, w, HorizontalBlock(p, f, w, h, round0, bd))
  {
    hide Small, PutRows, Rows.Has, HorizontalBlock, Fits, ColumnsOf;
    var p := Rows(memory, src - 3, srcStride);
    HasColumns(p, RoundUp(w) + 8, h, w + 7);
    ghost var rows := HorizontalBlock(p, f, w, h, round0, bd);
    ColumnEnds(dst[..], at, dstStride, w, rows);
    var j := 0;
    while j < w
      invariant j == 0 || j == RoundUp(j) <= w || (j == 8 && w < 8)
      invariant Fits(dst.Length, at, dstStride, Min(j, w), h)
      invariant dst[..] == PutRows(old(dst[..]), at, dstStride, Min(j, w), ColumnsOf(rows, w, 0, Min(j, w)))
    {
      var n := if w - j > 4 then 8 else w;
      PutNextColumns(old(dst[..]), at, dstStride, w, rows, j, n);
      HorizontalColumns(p, f, w, h, round0, bd, j, n);
      HasFurther(p, RoundUp(w) + 8, h, j, 16);
      HorizontalColumnsTo(dst, at + j, dstStride, p.Further(j), f, n, h, round0, bd);
      j := j + 8;
    }
  }

  // ----- what the filters mean -----

  lemma {:induction false} ColumnIs(p: Rows, r: nat, c: nat, q: nat)
    requires p.Has(c + 1, r + 8) && q == p.at + Offset(r, p.stride) + c
    ensures q + 7 * p.stride < |p.memory|
    ensures
      Column(p, r, c)
      == [p.memory[q], p.memory[q + p.stride], p.memory[q + 2 * p.stride], p.memory[q + 3 * p.stride],
          p.memory[q + 4 * p.stride], p.memory[q + 5 * p.stride], p.memory[q + 6 * p.stride],
          p.memory[q + 7 * p.stride]]
  {
    hide Offset;
    OffsetNext(r, p.stride);
    OffsetNext(r + 1, p.stride);
    OffsetNext(r + 2, p.stride);
    OffsetNext(r + 3, p.stride);
    OffsetNext(r + 4, p.stride);
    OffsetNext(r + 5, p.stride);
    OffsetNext(r + 6, p.stride);
    assert p.at + Offset(r + 7, p.stride) + (c + 1) <= |p.memory|;
  }

  lemma {:induction false} LineIs(p: Rows, r: nat, c: nat, q: nat)
    requires p.Has(c + 8, r + 1) && q == p.at + Offset(r, p.stride) + c
    ensures q + 7 < |p.memory|
    ensures Line(p, r, c) == [p.memory[q], p.memory[q + 1], p.memory[q + 2], p.memory[q + 3],
                              p.memory[q + 4], p.memory[q + 5], p.memory[q + 6], p.memory[q + 7]]
  {
    hide Offset;
    assert p.at + Offset(r, p.stride) + (c + 8) <= |p.memory|;
  }

  // The pixel in row r and column c of the picture, in numbers: eight pixels of memory below each other, the first
  // of them at q, rounded and clipped to the bit depth.
  lemma {:induction false} VerticalAt(d: seq<u16>, at: nat, stride: nat, p: Rows, f: seq<int>, w: nat, h: nat, bd: nat,
                                      r: nat, c: nat, q: nat)
    requires p.Has(w, h + 7) && |f| == 8 && Fits(|d|, at, stride, w, h) && r < h && c < w
    requires q == p.at + Offset(r, p.stride) + c
    ensures at + Offset(r, stride) + c < |d| && q + 7 * p.stride < |p.memory|
    ensures
      var m, s := p.memory, p.stride;
      var sum := f[0] * m[q] + f[1] * m[q + s] + f[2] * m[q + 2 * s] + f[3] * m[q + 3 * s]
                 + f[4] * m[q + 4 * s] + f[5] * m[q + 5 * s] + f[6] * m[q + 6 * s] + f[7] * m[q + 7 * s];
      PutRows(d, at, stride, w, VerticalBlock(p, f, w, h, bd))[at + Offset(r, stride) + c]
      == Max(0, Min((sum + 64) / 128, Pow2(if bd == 10 || bd == 12 then bd else 8) - 1))
  {
    hide Column, RoundedOnce, PutRows, Pow2, Rows.Has, Offset;
    HasFewerRows(p, w, h + 7, r + 8);
    HasColumns(p, w, r + 8, c + 1);
    PutRowsAt(d, at, stride, w, VerticalBlock(p, f, w, h, bd), r, c);
    ColumnIs(p, r, c, q);
    OnceIs(f, Column(p, r, c), bd);
  }

  // Eight pixels next to each other, rounded twice.
  lemma {:induction false} HorizontalAt(d: seq<u16>, at: nat, stride: nat, p: Rows, f: seq<int>, w: nat, h: nat,
                                        round0: nat, bd: nat, r: nat, c: nat, q: nat)
    requires p.Has(w + 7, h) && |f| == 8 && round0 <= 7 && Fits(|d|, at, stride, w, h) && r < h && c < w
    requires q == p.at + Offset(r, p.stride) + c
    ensures at + Offset(r, stride) + c < |d| && q + 7 < |p.memory|
    ensures
      var m := p.memory;
      var sum := f[0] * m[q] + f[1] * m[q + 1] + f[2] * m[q + 2] + f[3] * m[q + 3]
                 + f[4] * m[q + 4] + f[5] * m[q + 5] + f[6] * m[q + 6] + f[7] * m[q + 7];
      var once := (sum + Pow2(round0) / 2) / Pow2(round0);
      PutRows(d, at, stride, w, HorizontalBlock(p, f, w, h, round0, bd))[at + Offset(r, stride) + c]
      == Max(0, Min((once + Pow2(7 - round0) / 2) / Pow2(7 - round0),
                    Pow2(if bd == 10 || bd == 12 then bd else 8) - 1))
  {
    hide Line, RoundedTwice, PutRows, Pow2, Rows.Has, Offset;
    HasFewerRows(p, w + 7, h, r + 1);
    HasColumns(p, w + 7, r + 1, c + 8);
    PutRowsAt(d, at, stride, w, HorizontalBlock(p, f, w, h, round0, bd), r, c);
    LineIs(p, r, c, q);
    TwiceIs(f, Line(p, r, c), round0, bd);
  }

  // Both filters leave a constant picture as it is.
  lemma {:induction false} ConstantPicture(p: Rows, f: seq<int>, w: nat, h: nat, round0: nat, bd: nat, v: u16)
    requires p.Has(w + 7, h + 7) && |f| == 8 && f[0] + f[1] + f[2] + f[3] + f[4] + f[5] + f[6] + f[7] == 128
    requires (forall i :: 0 <= i < |p.memory| ==> p.memory[i] == v) && round0 <= FILTER_BITS
    requires v < Pow2(if bd == 10 || bd == 12 then bd else 8)
    ensures p.Has(w, h + 7) && p.Has(w + 7, h)
    ensures forall r :: 0 <= r < h ==> VerticalBlock(p, f, w, h, bd)[r] == Set1(v, w)
    ensures forall r :: 0 <= r < h ==> HorizontalBlock(p, f, w, h, round0, bd)[r] == Set1(v, w)
  {
    hide Offset, RoundedOnce, RoundedTwice, MaxPixel, Pow2;
    MaxPixelIs(bd);
    HasColumns(p, w + 7, h + 7, w);
    HasFewerRows(p, w + 7, h + 7, h);
    forall r, c | 0 <= r < h && 0 <= c < w
      ensures VerticalBlock(p, f, w, h, bd)[r][c] == v && HorizontalBlock(p, f, w, h, round0, bd)[r][c] == v
    {
      ConstantFixed(f, Column(p, r, c), v, round0, bd);
      ConstantFixed(f, Line(p, r, c), v, round0, bd);
    }
  }
}
