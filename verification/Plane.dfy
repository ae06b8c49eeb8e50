/** Rows of pixels in a buffer. */
module Plane {
  import opened Arithmetic

  // A buffer with a row of pixels written at a position.
  ghost function Put<T>(d: seq<T>, at: nat, row: seq<T>): (e: seq<T>)
    requires at + |row| <= |d|
    ensures |e| == |d|
  {
    d[..at] + row + d[at + |row|..]
  }

  // Room for n rows of a width, no wider than the stride.
  ghost predicate Fits(length: nat, at: nat, stride: nat, width: nat, n: nat) {
    width <= stride && (n > 0 ==> at + Offset(n - 1, stride) + width <= length)
  }

  // A buffer with rows written from a position on, one stride apart.
  ghost function PutRows<T>(d: seq<T>, at: nat, stride: nat, width: nat, rows: seq<seq<T>>): (e: seq<T>)
    requires Fits(|d|, at, stride, width, |rows|) && forall r :: 0 <= r < |rows| ==> |rows[r]| == width
    ensures |e| == |d|
    decreases |rows|
  {
    if rows == [] then d
    else
      var n := |rows| - 1;
      FitsFewer(|d|, at, stride, width, n + 1, n);
      Put(PutRows(d, at, stride, width, rows[..n]), at + Offset(n, stride), rows[n])
  }

  lemma {:induction false} FitsFewer(length: nat, at: nat, stride: nat, width: nat, n: nat, m: nat)
    requires Fits(length, at, stride, width, n) && m <= n
    ensures Fits(length, at, stride, width, m)
  {
    if 0 < m < n {
      OffsetsApart(m - 1, n - 1, stride);
    }
  }

  // n rows of a width can be read, one stride apart.
  ghost predicate Readable(length: nat, stride: nat, width: nat, n: nat) {
    forall r :: 0 <= r < n ==> Offset(r, stride) + width <= length
  }

  // That is so when the last row can.
  lemma {:induction false} ReadableWhen(length: nat, stride: nat, width: nat, n: nat)
    ensures Readable(length, stride, width, n) <==> n == 0 || Offset(n - 1, stride) + width <= length
  {
    hide Offset;
    if n > 0 && Offset(n - 1, stride) + width <= length {
      forall r | 0 <= r < n
        ensures Offset(r, stride) + width <= length
      {
        if r < n - 1 { OffsetsApart(r, n - 1, stride); }
      }
    }
  }

  ghost function Row<T>(memory: seq<T>, stride: nat, width: nat, r: nat): (row: seq<T>)
    requires Offset(r, stride) + width <= |memory|
    ensures |row| == width
  {
    memory[Offset(r, stride)..Offset(r, stride) + width]
  }

  // Writing one row more.
  lemma {:induction false} PutRowsNext<T>(d: seq<T>, at: nat, stride: nat, width: nat, rows: seq<seq<T>>, row: seq<T>)
    requires Fits(|d|, at, stride, width, |rows| + 1) && |row| == width && forall r :: 0 <= r < |rows| ==>
        |rows[r]| == width
    ensures Fits(|d|, at, stride, width, |rows|) && at + Offset(|rows|, stride) + width <= |d|
    ensures PutRows(d, at, stride, width, rows + [row])
         == Put(PutRows(d, at, stride, width, rows), at + Offset(|rows|, stride), row)
  {
    hide Offset, Put;
    FitsFewer(|d|, at, stride, width, |rows| + 1, |rows|);
    assert (rows + [row])[..|rows|] == rows;
  }

  // The pixel of every row and column is where it belongs, and nothing else changes.
  lemma {:induction false} PutRowsAt<T>(d: seq<T>, at: nat, stride: nat, width: nat, rows: seq<seq<T>>, r: nat, c: nat)
    requires Fits(|d|, at, stride, width, |rows|) && (forall q :: 0 <= q < |rows| ==> |rows[q]| == width)
    requires r < |rows| && c < width
    ensures at + Offset(r, stride) + c < |d|
    ensures PutRows(d, at, stride, width, rows)[at + Offset(r, stride) + c] == rows[r][c]
    decreases |rows|
  {
    hide Offset;
    var n := |rows| - 1;
    FitsFewer(|d|, at, stride, width, n + 1, r + 1);
    FitsFewer(|d|, at, stride, width, n + 1, n);
    if r < n {
      OffsetsApart(r, n, stride);
      PutRowsAt(d, at, stride, width, rows[..n], r, c);
    }
  }

  // Reading back a row of a block.
  lemma {:induction false} RowOfBlock<T>(d: seq<T>, stride: nat, width: nat, rows: seq<seq<T>>, r: nat)
    requires Fits(|d|, 0, stride, width, |rows|) && (forall q :: 0 <= q < |rows| ==> |rows[q]| == width) && r < |rows|
    ensures Offset(r, stride) + width <= |d| && Row(PutRows(d, 0, stride, width, rows), stride, width, r) == rows[r]
  {
    FitsFewer(|d|, 0, stride, width, |rows|, r + 1);
    hide Offset, PutRows;
    var e := PutRows(d, 0, stride, width, rows);
    forall c | 0 <= c < width
      ensures e[Offset(r, stride) + c] == rows[r][c]
    {
      PutRowsAt(d, 0, stride, width, rows, r, c);
    }
  }

  ghost predicate Outside(i: nat, at: nat, stride: nat, width: nat, n: nat) {
    forall r :: 0 <= r < n ==> i < at + Offset(r, stride) || i >= at + Offset(r, stride) + width
  }

  lemma {:induction false} PutRowsElsewhere<T>(d: seq<T>, at: nat, stride: nat, width: nat, rows: seq<seq<T>>, i: nat)
    requires Fits(|d|, at, stride, width, |rows|) && (forall q :: 0 <= q < |rows| ==> |rows[q]| == width)
    requires i < |d| && Outside(i, at, stride, width, |rows|)
    ensures PutRows(d, at, stride, width, rows)[i] == d[i]
    decreases |rows|
  {
    hide Offset;
    if rows != [] {
      var n := |rows| - 1;
      FitsFewer(|d|, at, stride, width, n + 1, n);
      PutRowsElsewhere(d, at, stride, width, rows[..n], i);
    }
  }

  // What lies past a row written is not touched.
  lemma {:induction false} PutKeepsAfter<T>(d: seq<T>, at: nat, row: seq<T>, from: nat, n: nat)
    requires at + |row| <= from && from + n <= |d|
    ensures Put(d, at, row)[from..from + n] == d[from..from + n]
  {
    assert forall i :: from <= i < |d| ==> Put(d, at, row)[i] == d[i];
  }

  // Two rows next to each other are written as one.
  lemma {:induction false} PutTwo<T>(d: seq<T>, at: nat, a: seq<T>, b: seq<T>)
    requires at + |a| + |b| <= |d|
    ensures Put(d, at, a + b) == Put(Put(d, at, a), at + |a|, b)
  {
  }

  // Writes that do not overlap may be swapped.
  lemma {:induction false} PutSwap<T>(d: seq<T>, at: nat, a: seq<T>, further: nat, b: seq<T>)
    requires at + |a| <= further && further + |b| <= |d|
    ensures Put(Put(d, at, a), further, b) == Put(Put(d, further, b), at, a)
  {
  }

  // A row written piece by piece.
  lemma {:induction false} PutMore<T>(d: seq<T>, at: nat, row: seq<T>, c: nat, n: nat)
    requires at + |row| <= |d| && c + n <= |row|
    ensures Put(Put(d, at, row[..c]), at + c, row[c..c + n]) == Put(d, at, row[..c + n])
    ensures Put(d, at, row[..0]) == d && row[..|row|] == row
  {
    assert row[..c] + row[c..c + n] == row[..c + n];
    PutTwo(d, at, row[..c], row[c..c + n]);
  }

  // One piece more of each of two rows.
  lemma {:induction false} TwoMore<T>(d: seq<T>, at: nat, a: seq<T>, further: nat, b: seq<T>, j: nat, n: nat)
    requires at + |a| <= further && further + |b| <= |d| && j + n <= |a| == |b|
    ensures Put(Put(Put(Put(d, at, a[..j]), further, b[..j]), at + j, a[j..j + n]), further + j, b[j..j + n])
         == Put(Put(d, at, a[..j + n]), further, b[..j + n])
  {
    hide Put;
    var e := Put(d, at, a[..j]);
    PutSwap(e, at + j, a[j..j + n], further, b[..j]);
    PutMore(d, at, a, j, n);
    PutMore(Put(d, at, a[..j + n]), further, b, j, n);
  }

  // ----- writing a block row by row -----

  ghost predicate IsBlock<T>(rows: seq<seq<T>>, width: nat) {
    forall r :: 0 <= r < |rows| ==> |rows[r]| == width
  }

  // The first n rows of a block are written, and nothing else.
  ghost predicate Written<T>(d: seq<T>, before: seq<T>, at: nat, stride: nat, width: nat, rows: seq<seq<T>>, n: nat) {
    && IsBlock(rows, width) && n <= |rows| && Fits(|before|, at, stride, width, |rows|)
         && Fits(|before|, at, stride, width, n)
    && d == PutRows(before, at, stride, width, rows[..n])
  }

  lemma {:induction false} WrittenNone<T>(d: seq<T>, at: nat, stride: nat, width: nat, rows: seq<seq<T>>)
    requires IsBlock(rows, width) && Fits(|d|, at, stride, width, |rows|)
    ensures Written(d, d, at, stride, width, rows, 0) && Offset(0, stride) == 0
  {
    FitsFewer(|d|, at, stride, width, |rows|, 0);
  }

  lemma {:induction false} WrittenAll<T>(d: seq<T>, before: seq<T>, at: nat, stride: nat, width: nat, rows: seq<seq<T>>)
    requires Written(d, before, at, stride, width, rows, |rows|)
    ensures d == PutRows(before, at, stride, width, rows)
  {
    assert rows[..|rows|] == rows;
  }

  // The rows still to be written are as they were.
  lemma {:induction false} NotYetWritten<T>(d: seq<T>, before: seq<T>, stride: nat, width: nat, rows: seq<seq<T>>,
                                            n: nat)
    requires Written(d, before, 0, stride, width, rows, n) && n < |rows|
    ensures |d| == |before| && Offset(n, stride) + width <= |d|
    ensures d[Offset(n, stride)..Offset(n, stride) + width] == before[Offset(n, stride)..Offset(n, stride) + width]
  {
    hide Offset, PutRows;
    FitsFewer(|before|, 0, stride, width, |rows|, n + 1);
    var now, was := d[Offset(n, stride)..Offset(n, stride) + width],
        before[Offset(n, stride)..Offset(n, stride) + width];
    forall c | 0 <= c < width
      ensures now[c] == was[c]
    {
      forall r | 0 <= r < n
        ensures Offset(r, stride) + width <= Offset(n, stride)
      {
        OffsetsApart(r, n, stride);
      }
      PutRowsElsewhere(before, 0, stride, width, rows[..n], Offset(n, stride) + c);
    }
  }

  lemma {:induction false} WrittenNext<T>(d: seq<T>, before: seq<T>, at: nat, stride: nat, width: nat,
                                          rows: seq<seq<T>>, n: nat)
    requires Written(d, before, at, stride, width, rows, n) && n < |rows|
    ensures at + Offset(n, stride) + width <= |d| == |before| && Offset(n + 1, stride) == Offset(n, stride) + stride
    ensures Written(Put(d, at + Offset(n, stride), rows[n]), before, at, stride, width, rows, n + 1)
  {
    hide Offset, Put;
    OffsetNext(n, stride);
    FitsFewer(|before|, at, stride, width, |rows|, n + 1);
    PutRowsNext(before, at, stride, width, rows[..n], rows[n]);
    assert rows[..n] + [rows[n]] == rows[..n + 1];
  }

  lemma {:induction false} WrittenNextTwo<T>(d: seq<T>, before: seq<T>, at: nat, width: nat, rows: seq<seq<T>>, n: nat)
    requires Written(d, before, at, width, width, rows, n) && n + 2 <= |rows|
    ensures at + Offset(n, width) + 2 * width <= |d| == |before| && Offset(n + 2, width) == Offset(n, width) + 2 * width
    ensures Written(Put(d, at + Offset(n, width), rows[n] + rows[n + 1]), before, at, width, width, rows, n + 2)
  {
    hide Offset, Put, Written;
    WrittenSizes(d, before, at, width, width, rows, n);
    WrittenNext(d, before, at, width, width, rows, n);
    var e := Put(d, at + Offset(n, width), rows[n]);
    WrittenNext(e, before, at, width, width, rows, n + 1);
    PutTwo(d, at + Offset(n, width), rows[n], rows[n + 1]);
  }

  lemma {:induction false} WrittenNextFour<T>(d: seq<T>, before: seq<T>, at: nat, width: nat, rows: seq<seq<T>>, n: nat)
    requires Written(d, before, at, width, width, rows, n) && n + 4 <= |rows|
    ensures at + Offset(n, width) + 4 * width <= |d| == |before| && Offset(n + 4, width) == Offset(n, width) + 4 * width
    ensures Written(Put(d, at + Offset(n, width), rows[n] + rows[n + 1] + (rows[n + 2] + rows[n + 3])), before, at,
                    width, width, rows, n + 4)
  {
    hide Offset, Put, Written;
    WrittenSizes(d, before, at, width, width, rows, n);
    WrittenNextTwo(d, before, at, width, rows, n);
    var e := Put(d, at + Offset(n, width), rows[n] + rows[n + 1]);
    WrittenNextTwo(e, before, at, width, rows, n + 2);
    PutTwo(d, at + Offset(n, width), rows[n] + rows[n + 1], rows[n + 2] + rows[n + 3]);
  }

  lemma {:induction false} WrittenSizes<T>(d: seq<T>, before: seq<T>, at: nat, stride: nat, width: nat,
                                           rows: seq<seq<T>>, n: nat)
    requires Written(d, before, at, stride, width, rows, n)
    ensures IsBlock(rows, width) && |d| == |before|
  {
  }

  lemma {:induction false} WrittenWidth<T>(d: seq<T>, before: seq<T>, at: nat, stride: nat, width: nat,
                                           rows: seq<seq<T>>, n: nat)
    requires Written(d, before, at, stride, width, rows, n)
    ensures width <= stride
  {
  }

  // ----- writing a block column by column -----

  // Some columns of a block.
  ghost function ColumnsOf<T>(rows: seq<seq<T>>, w: nat, c: nat, n: nat): (part: seq<seq<T>>)
    requires IsBlock(rows, w) && c + n <= w
    ensures |part| == |rows| && IsBlock(part, n)
  {
    seq(|rows|, r requires 0 <= r < |rows| => rows[r][c..c + n])
  }

  // A write further on than all rows of a block may come before them.
  lemma {:induction false} PutPast<T>(d: seq<T>, at: nat, stride: nat, width: nat, rows: seq<seq<T>>, further: nat,
                                      b: seq<T>)
    requires IsBlock(rows, width) && Fits(|d|, at, stride, width, |rows|) && further + |b| <= |d|
    requires rows != [] ==> at + Offset(|rows| - 1, stride) + width <= further
    ensures PutRows(Put(d, further, b), at, stride, width, rows) == Put(PutRows(d, at, stride, width, rows), further, b)
    decreases |rows|
  {
    hide Offset, Put;
    if rows != [] {
      var n := |rows| - 1;
      FitsFewer(|d|, at, stride, width, n + 1, n);
      if n > 0 {
        OffsetNext(n - 1, stride);
      }
      PutPast(d, at, stride, width, rows[..n], further, b);
      PutSwap(PutRows(d, at, stride, width, rows[..n]), at + Offset(n, stride), rows[n], further, b);
    }
  }

  lemma {:induction false} FitsBeside(length: nat, at: nat, stride: nat, width: nat, n: nat, c: nat, v: nat)
    requires Fits(length, at, stride, width, n) && c + v <= width
    ensures Fits(length, at + c, stride, v, n)
  {
    hide Offset;
  }

  // Two blocks side by side are written as one.
  lemma {:induction false} PutBeside<T>(d: seq<T>, at: nat, stride: nat, width: nat, rows: seq<seq<T>>, c: nat)
    requires IsBlock(rows, width) && Fits(|d|, at, stride, width, |rows|) && c <= width
    ensures Fits(|d|, at, stride, c, |rows|) && Fits(|d|, at + c, stride, width - c, |rows|)
    ensures PutRows(PutRows(d, at, stride, c, ColumnsOf(rows, width, 0, c)), at + c, stride, width - c,
                    ColumnsOf(rows, width, c, width - c))
         == PutRows(d, at, stride, width, rows)
    decreases |rows|
  {
    hide Offset, Put, Fits;
    FitsBeside(|d|, at, stride, width, |rows|, 0, c);
    FitsBeside(|d|, at, stride, width, |rows|, c, width - c);
    if rows != [] {
      var n := |rows| - 1;
      var left, right := ColumnsOf(rows, width, 0, c), ColumnsOf(rows, width, c, width - c);
      FitsFewer(|d|, at, stride, width, n + 1, n);
      PutBeside(d, at, stride, width, rows[..n], c);
      assert ColumnsOf(rows[..n], width, 0, c) == left[..n] && ColumnsOf(rows[..n], width, c, width - c) == right[..n];
      PutLast(d, at, stride, width, rows, c, left, right);
    }
  }

  lemma {:induction false} PutRowsLast<T>(d: seq<T>, at: nat, stride: nat, width: nat, rows: seq<seq<T>>)
    requires IsBlock(rows, width) && Fits(|d|, at, stride, width, |rows|) && rows != []
    ensures
      var n := |rows| - 1;
      && Fits(|d|, at, stride, width, n) && at + Offset(n, stride) + width <= |d|
      && PutRows(d, at, stride, width, rows) == Put(PutRows(d, at, stride, width, rows[..n]), at + Offset(n, stride),
                                                    rows[n])
  {
    hide Offset, Put;
    FitsFewer(|d|, at, stride, width, |rows|, |rows| - 1);
  }

  lemma {:induction false} PutLast<T>(d: seq<T>, at: nat, stride: nat, width: nat, rows: seq<seq<T>>, c: nat,
                                      left: seq<seq<T>>, right: seq<seq<T>>)
    requires IsBlock(rows, width) && Fits(|d|, at, stride, width, |rows|) && c <= width && rows != []
    requires left == ColumnsOf(rows, width, 0, c) && right == ColumnsOf(rows, width, c, width - c)
    requires var n := |rows| - 1;
      && Fits(|d|, at, stride, c, n) && Fits(|d|, at + c, stride, width - c, n) && Fits(|d|, at, stride, width, n)
      && PutRows(PutRows(d, at, stride, c, left[..n]), at + c, stride, width - c, right[..n])
           == PutRows(d, at, stride, width, rows[..n])
    ensures Fits(|d|, at, stride, c, |rows|) && Fits(|d|, at + c, stride, width - c, |rows|)
    ensures PutRows(PutRows(d, at, stride, c, left), at + c, stride, width - c, right)
        == PutRows(d, at, stride, width, rows)
  {
    hide Offset, Put, PutRows;
    var n := |rows| - 1;
    var p := at + Offset(n, stride);
    FitsBeside(|d|, at, stride, width, |rows|, 0, c);
    FitsBeside(|d|, at, stride, width, |rows|, c, width - c);
    if n > 0 {
      OffsetNext(n - 1, stride);
    }
    PutRowsLast(d, at, stride, c, left);
    PutRowsLast(d, at, stride, width, rows);
    var e := PutRows(d, at, stride, c, left[..n]);
    PutPast(e, at + c, stride, width - c, right[..n], p, left[n]);
    PutRowsLast(Put(e, p, left[n]), at + c, stride, width - c, right);
    assert left[n] + right[n] == rows[n];
    PutTwo(PutRows(d, at, stride, width, rows[..n]), p, left[n], right[n]);
  }

  lemma {:induction false} PartOfPart<T>(rows: seq<seq<T>>, width: nat, m: nat, c: nat, n: nat)
    requires IsBlock(rows, width) && c + n <= m <= width
    ensures ColumnsOf(ColumnsOf(rows, width, 0, m), m, c, n) == ColumnsOf(rows, width, c, n)
  {
    var a, b := ColumnsOf(ColumnsOf(rows, width, 0, m), m, c, n), ColumnsOf(rows, width, c, n);
    forall r | 0 <= r < |rows|
      ensures a[r] == b[r]
    {
      assert rows[r][0..m][c..c + n] == rows[r][c..c + n];
    }
  }

  // Some columns more.
  lemma {:induction false} PutNextColumns<T>(d: seq<T>, at: nat, stride: nat, width: nat, rows: seq<seq<T>>, c: nat,
                                             n: nat)
    requires IsBlock(rows, width) && Fits(|d|, at, stride, width, |rows|) && c + n <= width
    ensures Fits(|d|, at, stride, c, |rows|) && Fits(|d|, at + c, stride, n, |rows|)
        && Fits(|d|, at, stride, c + n, |rows|)
    ensures PutRows(PutRows(d, at, stride, c, ColumnsOf(rows, width, 0, c)), at + c, stride, n,
                    ColumnsOf(rows, width, c, n))
         == PutRows(d, at, stride, c + n, ColumnsOf(rows, width, 0, c + n))
  {
    hide Fits, PutRows;
    FitsBeside(|d|, at, stride, width, |rows|, 0, c + n);
    FitsBeside(|d|, at, stride, width, |rows|, 0, c);
    FitsBeside(|d|, at, stride, width, |rows|, c, n);
    var part := ColumnsOf(rows, width, 0, c + n);
    PutBeside(d, at, stride, c + n, part, c);
    PartOfPart(rows, width, c + n, 0, c);
    PartOfPart(rows, width, c + n, c, n);
  }

  lemma {:induction false} NoColumns<T>(d: seq<T>, at: nat, stride: nat, rows: seq<seq<T>>)
    requires IsBlock(rows, 0) && Fits(|d|, at, stride, 0, |rows|)
    ensures PutRows(d, at, stride, 0, rows) == d
    decreases |rows|
  {
    hide Offset;
    if rows != [] {
      var n := |rows| - 1;
      FitsFewer(|d|, at, stride, 0, n + 1, n);
      NoColumns(d, at, stride, rows[..n]);
    }
  }

  // Before the first column, and after the last.
  lemma {:induction false} ColumnEnds<T>(d: seq<T>, at: nat, stride: nat, width: nat, rows: seq<seq<T>>)
    requires IsBlock(rows, width) && Fits(|d|, at, stride, width, |rows|)
    ensures Fits(|d|, at, stride, 0, |rows|) && PutRows(d, at, stride, 0, ColumnsOf(rows, width, 0, 0)) == d
    ensures ColumnsOf(rows, width, 0, width) == rows
  {
    FitsBeside(|d|, at, stride, width, |rows|, 0, 0);
    NoColumns(d, at, stride, ColumnsOf(rows, width, 0, 0));
    var all := ColumnsOf(rows, width, 0, width);
    forall r | 0 <= r < |rows|
      ensures all[r] == rows[r]
    {
    }
  }

  lemma {:induction false} PutOne<T>(d: seq<T>, at: nat, row: seq<T>, i: nat)
    requires at + |row| <= |d| && i < |row|
    ensures Put(d, at, row[..i])[at + i := row[i]] == Put(d, at, row[..i + 1])
  {
  }

  // A store of consecutive pixels.
  method Store<T>(d: array<T>, at: nat, row: seq<T>)
    requires at + |row| <= d.Length
    modifies d
    ensures d[..] == Put(old(d[..]), at, row)
  {
    hide Put;
    assert Put(d[..], at, row[..0]) == d[..] by { PutMore(d[..], at, row, 0, 0); }
    for i := 0 to |row|
      invariant d[..] == Put(old(d[..]), at, row[..i])
    {
      PutOne(old(d[..]), at, row, i);
      d[at + i] := row[i];
    }
    assert row[..|row|] == row;
  }
}
