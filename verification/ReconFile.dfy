/** The reconstruction file: pictures arrive in coding order and are stored in display order. */
module ReconFile {
  import opened Arithmetic
  import opened MachineInts

  // Writing at a position of a file; a gap before it reads as zeros.
  ghost function Placed(file: seq<u8>, at: nat, data: seq<u8>): seq<u8> {
    if data == [] then file
    else
      seq(if at + |data| > |file| then at + |data| else |file|,
          i requires 0 <= i => if at <= i < at + |data| then data[i - at] else if i < |file| then file[i] else 0)
  }

  // The file after writing pictures, each at its number times its size.
  ghost function Written(recons: seq<(nat, seq<u8>)>): seq<u8> {
    if recons == [] then []
    else
      var r := recons[|recons| - 1];
      Placed(Written(recons[..|recons| - 1]), Offset(r.0, |r.1|), r.1)
  }

  // The last picture received under each number.
  ghost function Slots(recons: seq<(nat, seq<u8>)>): map<nat, seq<u8>> {
    if recons == [] then map[]
    else
      var r := recons[|recons| - 1];
      Slots(recons[..|recons| - 1])[r.0 := r.1]
  }

  ghost predicate OneSize(recons: seq<(nat, seq<u8>)>, size: nat) {
    forall i :: 0 <= i < |recons| ==> |recons[i].1| == size
  }

  // What a file of slots holds at position i: zero where nothing was written.
  ghost function ByteOf(slots: map<nat, seq<u8>>, size: nat, i: nat): u8
    requires size > 0
  {
    var k, j := i / size, i % size;
    if k in slots && j < |slots[k]| then slots[k][j] else 0
  }

  // A file of slots: the last one written ends it.
  ghost predicate Holds(file: seq<u8>, slots: map<nat, seq<u8>>, size: nat)
    requires size > 0
  {
    && (forall k :: k in slots ==> Offset(k, size) + size <= |file|)
    && (file == [] || exists k :: k in slots && Offset(k, size) + size == |file|)
    && forall i :: 0 <= i < |file| ==> file[i] == ByteOf(slots, size, i)
  }

  class RandomFile {
    var contents: seq<u8>
    var pos: nat

    constructor ()
      ensures contents == [] && pos == 0
    {
      contents, pos := [], 0;
    }

    method Rewind()
      modifies this`pos
      ensures pos == 0
    {
      pos := 0;
    }

    // fseeko from the current position
    method Skip(n: nat)
      modifies this`pos
      ensures pos == old(pos) + n
    {
      pos := pos + n;
    }

    // fwrite
    method Write(data: seq<u8>)
      modifies this
      ensures contents == Placed(old(contents), old(pos), data) && pos == old(pos) + |data|
    {
      var file, at := contents, pos;
      if |data| > 0 {
        var length := if at + |data| > |file| then at + |data| else |file|;
        contents := seq(length, i requires 0 <= i => if at <= i < at + |data| then data[i - at] else if i < |file| then
            file[i] else 0);
      }
      pos := pos + |data|;
    }

    // The writing part of process_output_recon_buffer.
    method Store(number: nat, data: seq<u8>)
      modifies this
      ensures contents == Placed(old(contents), Offset(number, |data|), data)
    {
      Rewind();
      var left := number;
      while left > 0
        invariant 0 <= left <= number && pos == Offset(number - left, |data|) && contents == old(contents)
      {
        assert (number - left + 1) * |data| == (number - left) * |data| + |data|;
        Skip(|data|);
        left := left - 1;
      }
      Write(data);
    }
  }

  lemma {:induction false} ByteOfUpdate(slots: map<nat, seq<u8>>, k: nat, data: seq<u8>, i: nat)
    requires data != []
    ensures
      var size, at := |data|, Offset(k, |data|);
      ByteOf(slots[k := data], size, i) == if at <= i < at + size then data[i - at] else ByteOf(slots, size, i)
  {
    var size, at := |data|, Offset(k, |data|);
    if at <= i < at + size {
      Quotient(i, size, k, i - at);
    } else {
      assert i == i / size * size + i % size;
    }
  }

  // Beyond the end of a file of slots nothing was written.
  lemma {:induction false} ByteBeyond(file: seq<u8>, slots: map<nat, seq<u8>>, size: nat, i: nat)
    requires size > 0 && Holds(file, slots, size) && i >= |file|
    ensures ByteOf(slots, size, i) == 0
  {
    var k := i / size;
    assert i == k * size + i % size;
    assert k in slots ==> Offset(k, size) + size <= |file|;
  }

  lemma {:induction false} PlacedHolds(file: seq<u8>, slots: map<nat, seq<u8>>, number: nat, data: seq<u8>)
    requires data != [] && Holds(file, slots, |data|)
    ensures Holds(Placed(file, Offset(number, |data|), data), slots[number := data], |data|)
  {
    var size, at, slots' := |data|, Offset(number, |data|), slots[number := data];
    var placed := Placed(file, at, data);
    PlacedLength(file, slots, number, data);
    hide ByteOf, Offset;
    forall i | 0 <= i < |placed|
      ensures placed[i] == ByteOf(slots', size, i)
    {
      ByteOfUpdate(slots, number, data, i);
      if i >= |file| { ByteBeyond(file, slots, size, i); }
    }
  }

  lemma {:induction false} PlacedLength(file: seq<u8>, slots: map<nat, seq<u8>>, number: nat, data: seq<u8>)
    requires data != [] && Holds(file, slots, |data|)
    ensures
      var placed, size, slots' := Placed(file, Offset(number, |data|), data), |data|, slots[number := data];
      && |placed| == (if Offset(number, size) + size > |file| then Offset(number, size) + size else |file|)
      && (forall k :: k in slots' ==> Offset(k, size) + size <= |placed|)
      && exists k :: k in slots' && Offset(k, size) + size == |placed|
  {
    hide ByteOf, Offset;
    var size, slots' := |data|, slots[number := data];
    assert number in slots';
    if Offset(number, size) + size <= |file| {
      var k :| k in slots && Offset(k, size) + size == |file|;
      assert k in slots';
    }
  }

  lemma {:induction false} WrittenHolds(recons: seq<(nat, seq<u8>)>, size: nat)
    requires OneSize(recons, size) && size > 0
    ensures Holds(Written(recons), Slots(recons), size)
    decreases |recons|
  {
    if recons != [] {
      hide Placed, Holds, Offset;
      var r := recons[|recons| - 1];
      WrittenHolds(recons[..|recons| - 1], size);
      PlacedHolds(Written(recons[..|recons| - 1]), Slots(recons[..|recons| - 1]), r.0, r.1);
    }
  }

  // The file does not depend on the order the pictures come in, only on the last one
  // received under each number.
  lemma {:induction false} OrderIrrelevant(recons: seq<(nat, seq<u8>)>, others: seq<(nat, seq<u8>)>, size: nat)
    requires OneSize(recons, size) && OneSize(others, size) && size > 0 && Slots(recons) == Slots(others)
    ensures Written(recons) == Written(others)
  {
    hide Written, Slots, ByteOf, Offset;
    WrittenHolds(recons, size);
    WrittenHolds(others, size);
  }
}
