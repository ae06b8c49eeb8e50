/** Well-formed low-overhead streams and what the temporal unit reader returns for them. */
module ObuStreams {
  import Leb128
  import opened MachineInts
  import opened ObuHeaders
  import opened ObuReaders
  import opened Sequences

  // An OBU: its header, the encoding of its payload length, minimal or padded, and its payload.
  datatype Obu = Obu(header: ObuHeader, length: seq<u8>, payload: seq<u8>) {
    predicate IsDelimiter() { header.obuType == TEMPORAL_DELIMITER }

    ghost predicate Valid() {
      && ValidHeader(header) && header.hasSizeField
      && Leb128.IsLeb(length) && |length| <= 8 && Leb128.Value(length) == |payload| <= 0x1000_0000
    }

    function Bytes(): (s: seq<u8>)
      requires ValidHeader(header)
      ensures |s| == header.size + |length| + |payload|
    {
      Print(header) + length + payload
    }
  }

  ghost predicate AllValid(obus: seq<Obu>) {
    forall i :: 0 <= i < |obus| ==> obus[i].Valid()
  }

  // A stream the application accepts: it starts with an empty temporal delimiter or with a
  // sequence header that fits the initial buffer.
  ghost predicate WellFormed(obus: seq<Obu>) {
    && AllValid(obus) && obus != []
    && (if obus[0].IsDelimiter() then obus[0].payload == []
        else obus[0].header.obuType == SEQUENCE_HEADER && |obus[0].Bytes()| <= OBU_BUFFER_SIZE)
  }

  ghost function Bytes(obus: seq<Obu>): seq<u8>
    requires AllValid(obus)
  {
    if obus == [] then [] else obus[0].Bytes() + Bytes(obus[1..])
  }

  // The first byte of an OBU: its type in four bits, 2 for a temporal delimiter, and flags for the second byte and
  // the length field; the first bit and the last are clear. The second byte holds the layers.
  lemma {:induction false} HeaderBytes(o: Obu)
    requires o.Valid()
    ensures
      var s, h := o.Bytes(), o.header;
      && s != [] && s[0] < 128 && s[0] / 8 % 16 == h.obuType && s[0] / 2 % 2 == 1 && s[0] % 2 == 0
      && (h.hasExtension <==> s[0] / 4 % 2 == 1) && (o.IsDelimiter() <==> s[0] / 8 % 16 == 2)
      && (h.hasExtension ==>
            |s| >= 2 && s[1] / 32 == h.temporalLayer && s[1] / 8 % 4 == h.spatialLayer && s[1] % 8 == 0)
  {
    assert o.Bytes()[..o.header.size] == Print(o.header);
  }

  // Detection is what the first bytes of a stream say: type 2 without payload, or type 1 with an OBU of at most
  // 512000 bytes. So it accepts exactly the well-formed streams.
  lemma {:induction false} DetectsStream(obus: seq<Obu>)
    requires AllValid(obus) && obus != []
    ensures
      var o := obus[0];
      Detects(Bytes(obus)) <==>
        || (o.Bytes()[0] / 8 % 16 == 2 && o.payload == [])
        || (o.Bytes()[0] / 8 % 16 == 1 && |o.Bytes()| <= 512_000)
    ensures Detects(Bytes(obus)) <==> WellFormed(obus)
  {
    var o, rest := obus[0], Bytes(obus[1..]);
    assert o.Valid();
    HeaderBytes(o);
    ScanHeaderOfObu(o, rest);
    hide ScanHeader, Print, Leb128.IsLeb, Leb128.Value, ValidHeader;
  }

  // ----- the temporal units of a list of OBUs -----

  // The units, given the OBUs of the first one so far.
  ghost function Units(current: seq<Obu>, obus: seq<Obu>): (units: seq<seq<Obu>>)
    ensures units != []
    decreases |obus|
  {
    if obus == [] then [current]
    else if obus[0].IsDelimiter() then [current] + Units([obus[0]], obus[1..])
    else Units(current + [obus[0]], obus[1..])
  }

  ghost function TemporalUnits(obus: seq<Obu>): seq<seq<Obu>>
    requires obus != []
  {
    Units([obus[0]], obus[1..])
  }

  // A temporal unit holds exactly one temporal delimiter, at its start.
  ghost predicate IsTemporalUnit(unit: seq<Obu>) {
    unit != [] && unit[0].IsDelimiter() && forall i :: 0 < i < |unit| ==> !unit[i].IsDelimiter()
  }

  // The units are the OBUs of the stream in order, none lost and none added.
  lemma {:induction false} UnitsPartition(current: seq<Obu>, obus: seq<Obu>)
    ensures Flatten(Units(current, obus)) == current + obus
    decreases |obus|
  {
    if obus == [] {
      assert Flatten([current]) == current + Flatten([]);
    } else if obus[0].IsDelimiter() {
      UnitsPartition([obus[0]], obus[1..]);
      var rest := Units([obus[0]], obus[1..]);
      assert ([current] + rest)[1..] == rest;
    } else {
      UnitsPartition(current + [obus[0]], obus[1..]);
    }
  }

  lemma {:induction false} UnitsAreTemporal(current: seq<Obu>, obus: seq<Obu>)
    requires IsTemporalUnit(current)
    ensures forall u :: u in Units(current, obus) ==> IsTemporalUnit(u)
    decreases |obus|
  {
    if obus != [] {
      if obus[0].IsDelimiter() {
        UnitsAreTemporal([obus[0]], obus[1..]);
      } else {
        UnitsAreTemporal(current + [obus[0]], obus[1..]);
      }
    }
  }

  // A stream that starts with a temporal delimiter splits into temporal units ...
  lemma {:induction false} TemporalUnitsOfStream(obus: seq<Obu>)
    requires obus != [] && obus[0].IsDelimiter()
    ensures Flatten(TemporalUnits(obus)) == obus
    ensures forall u :: u in TemporalUnits(obus) ==> IsTemporalUnit(u)
  {
    UnitsPartition([obus[0]], obus[1..]);
    UnitsAreTemporal([obus[0]], obus[1..]);
  }

  // Any stream is cut at its delimiters and nowhere else.
  lemma {:induction false} CutAtDelimiters(current: seq<Obu>, obus: seq<Obu>)
    requires current != [] && forall j :: 0 < j < |current| ==> !current[j].IsDelimiter()
    ensures
      var units := Units(current, obus);
      && units[0] != [] && units[0][0] == current[0]
      && forall i, j :: 0 <= i < |units| && 0 <= j < |units[i]| && i + j > 0 ==>
                          (units[i][j].IsDelimiter() <==> j == 0)
    ensures forall u :: u in Units(current, obus) ==> u != []
    decreases |obus|
  {
    hide Obu.IsDelimiter;
    if obus != [] {
      if obus[0].IsDelimiter() {
        CutAtDelimiters([obus[0]], obus[1..]);
      } else {
        CutAtDelimiters(current + [obus[0]], obus[1..]);
      }
    }
  }

  // In bytes: an OBU of type 2 stands first in every unit but the first one, where the stream decides, and nowhere
  // else.
  lemma {:induction false} UnitTypes(obus: seq<Obu>, i: nat, j: nat)
    requires AllValid(obus) && obus != []
    requires i < |TemporalUnits(obus)| && j < |TemporalUnits(obus)[i]|
    ensures AllValid(TemporalUnits(obus)[i])
    ensures
      var o := TemporalUnits(obus)[i][j];
      o.Bytes()[0] / 8 % 16 == 2 <==> j == 0 && (i > 0 || obus[0].Bytes()[0] / 8 % 16 == 2)
  {
    hide Obu.Valid, Obu.Bytes, Units, Obu.IsDelimiter;
    UnitsValid([obus[0]], obus[1..]);
    CutAtDelimiters([obus[0]], obus[1..]);
    var units := TemporalUnits(obus);
    var o: Obu := units[i][j];
    assert o.Valid() && obus[0].Valid();
    HeaderBytes(o);
    HeaderBytes(obus[0]);
  }

  // ... and in no other way.
  lemma {:induction false} TemporalUnitsUnique(units: seq<seq<Obu>>)
    requires units != [] && forall i :: 0 <= i < |units| ==> IsTemporalUnit(units[i])
    ensures Flatten(units) != [] && TemporalUnits(Flatten(units)) == units
    decreases |units|
  {
    var first, rest := units[0], units[1..];
    if rest != [] { TemporalUnitsUnique(rest); }
    assert rest != [] ==> Flatten(rest)[0] == rest[0][0];
    var all := Flatten(units);
    assert all == first + Flatten(rest);
    UnitsOfFirst([first[0]], first[1..], Flatten(rest));
    assert all[1..] == first[1..] + Flatten(rest) && [first[0]] + first[1..] == first;
    assert units == [first] + rest;
  }

  lemma {:induction false} UnitsOfFirst(current: seq<Obu>, more: seq<Obu>, rest: seq<Obu>)
    requires forall i :: 0 <= i < |more| ==> !more[i].IsDelimiter()
    requires rest != [] ==> rest[0].IsDelimiter()
    ensures Units(current, more + rest) == if rest == [] then
        [current + more] else [current + more] + TemporalUnits(rest)
    decreases |more|
  {
    if more == [] {
      assert more + rest == rest && current + more == current;
    } else {
      assert (more + rest)[1..] == more[1..] + rest;
      assert current + [more[0]] + more[1..] == current + more;
      UnitsOfFirst(current + [more[0]], more[1..], rest);
    }
  }

  // ----- the reader on a well-formed stream -----

  // A header and a length field, followed by anything.
  lemma {:induction false} ScanHeaderOfParts(h: ObuHeader, length: seq<u8>, tail: seq<u8>)
    requires ValidHeader(h) && h.hasSizeField
    requires Leb128.IsLeb(length) && |length| <= 8 && Leb128.Value(length) <= 0xFFFF_FFFF
    ensures ScanHeader(Print(h) + (length + tail)) == ScanObu(Print(h) + length, Leb128.Value(length), h, true)
  {
    PrintThenParse(h, false);
    HeaderIsPrinted(h);
    var p := Print(h);
    hide Print, Parse, ValidHeader, TypeOf, SizeFieldOf, ExtensionOf, Leb128.ReadSpec, Leb128.IsLeb, Leb128.Value;
    var s := p + (length + tail);
    assert s[0] == p[0] && s[..|p|] == p && s[|p|..] == length + tail;
    Leb128.ReadSpecOfEncoding(length, tail);
  }

  lemma {:induction false} HeaderIsPrinted(h: ObuHeader)
    requires ValidHeader(h)
    ensures |Print(h)| == h.size == if h.hasExtension then 2 else 1
  {
  }

  lemma {:induction false} ScanHeaderOfObu(o: Obu, rest: seq<u8>)
    requires o.Valid()
    ensures ScanHeader(o.Bytes() + rest) == ScanObu(Print(o.header) + o.length, |o.payload|, o.header, true)
  {
    var h, tail := Print(o.header), o.payload + rest;
    ScanHeaderOfParts(o.header, o.length, tail);
    hide Print, ScanHeader, ValidHeader, Leb128.IsLeb;
    Regroup(h + o.length, o.payload, rest);
    Regroup(h, o.length, tail);
  }

  // The capacity after reading an OBU, and whether it fits.
  ghost function Capacity(o: Obu, buffered: nat, capacity: nat): (c: nat)
    requires o.Valid() && buffered <= capacity
    ensures c >= capacity
  {
    CapacityFor(capacity, buffered, o.header.size + |o.length|, |o.payload|)
  }

  ghost predicate ObuFits(o: Obu, buffered: nat, capacity: nat)
    requires o.Valid() && buffered <= capacity
  {
    !Overruns(capacity, buffered, o.header.size + |o.length|, |o.payload|, |o.payload|)
  }

  lemma {:induction false} ScanOneOfObu(o: Obu, rest: seq<u8>, buffered: nat, capacity: nat)
    requires o.Valid() && buffered <= capacity
    ensures
      var s := o.Bytes() + rest;
      && ScanOne(s, buffered, capacity) == (if ObuFits(o, buffered, capacity) then
           Read(|o.Bytes()|, o.header.obuType, true) else Overran)
      && CapacityAfter(s, buffered, capacity) == Capacity(o, buffered, capacity)
      && (ObuFits(o, buffered, capacity) ==> buffered + |o.Bytes()| <= Capacity(o, buffered, capacity))
  {
    ScanHeaderOfObu(o, rest);
    hide ScanHeader, Print, Leb128.IsLeb, Leb128.Value, CapacityFor;
  }

  // A payload of more than 256 MiB is refused whatever follows.
  lemma {:induction false} LargePayloadFails(h: ObuHeader, length: seq<u8>, rest: seq<u8>, buffered: nat, capacity: nat)
    requires ValidHeader(h) && h.hasSizeField && buffered <= capacity
    requires Leb128.IsLeb(length) && |length| <= 8 && 0x1000_0000 < Leb128.Value(length) <= 0xFFFF_FFFF
    ensures ScanOne(Print(h) + length + rest, buffered, capacity) == Failed
  {
    ScanHeaderOfParts(h, length, rest);
    hide Print, ScanHeader, ValidHeader, Leb128.IsLeb, Overruns;
    Regroup(Print(h), length, rest);
  }

  // Whether every OBU fits the buffer when its turn comes.
  ghost predicate Fits(obus: seq<Obu>, buffered: nat, capacity: nat)
    requires AllValid(obus) && buffered <= capacity
    decreases |obus|
  {
    obus == [] ||
    var o := obus[0];
    && ObuFits(o, buffered, capacity)
    && var c, n := Capacity(o, buffered, capacity), |o.Bytes()|;
    && buffered + n <= c && Fits(obus[1..], if o.IsDelimiter() then n else buffered + n, c)
  }

  // OBUs no larger than the buffer always fit.
  lemma {:induction false} SmallObusFit(obus: seq<Obu>, buffered: nat, capacity: nat)
    requires AllValid(obus) && buffered <= capacity
    requires forall i :: 0 <= i < |obus| ==> |obus[i].Bytes()| <= capacity
    ensures Fits(obus, buffered, capacity)
    decreases |obus|
  {
    hide CapacityFor, Leb128.IsLeb, Leb128.Value, ValidHeader;
    if obus != [] {
      var o := obus[0];
      SmallObuFits(capacity, buffered, o.header.size + |o.length|, |o.payload|);
      var c, n := Capacity(o, buffered, capacity), |o.Bytes()|;
      ScanOneOfObu(o, [], buffered, capacity);
      SmallObusFit(obus[1..], if o.IsDelimiter() then n else buffered + n, c);
    }
  }

  // A frame OBU without extension, filled with zeros.
  function ZeroFrame(length: seq<u8>, n: nat): Obu { Obu(ObuHeader(1, 6, false, true, 0, 0), length, seq(n, _ => 0)) }

  // A delimiter, an OBU that leaves ten bytes of the initial buffer, and an OBU of 600000 bytes.
  function OverrunStream(): seq<Obu> {
    [Obu(ObuHeader(1, TEMPORAL_DELIMITER, false, true, 0, 0), [0], []),
     ZeroFrame([0xF0, 0x9F, 0x1F], 511_984), ZeroFrame([0xBC, 0xCF, 0x24], 599_996)]
  }

  lemma {:induction false} ThreeByteLength(a: u8, b: u8, c: u8)
    requires a >= 0x80 && b >= 0x80 && c < 0x80
    ensures Leb128.IsLeb([a, b, c]) && Leb128.Value([a, b, c]) == a - 0x80 + 0x80 * (b - 0x80) + 0x4000 * c
  {
    var s: seq<u8> := [a, b, c];
    assert s[1..] == [b, c] && s[1..][1..] == [c] && s[1..][1..][1..] == [];
    assert Leb128.IsLeb([c]) && Leb128.IsLeb([b, c]);
    assert Leb128.Value([c]) == c && Leb128.Value([b, c]) == b - 0x80 + 0x80 * c;
  }

  // Such a stream is well-formed, yet its third OBU runs past the end of the buffer.
  lemma {:induction false} OverrunStreamDoesNotFit()
    ensures WellFormed(OverrunStream()) && |OverrunStream()[0].Bytes()| == 2
    ensures AllValid(OverrunStream()[1..]) && !Fits(OverrunStream()[1..], 2, OBU_BUFFER_SIZE)
  {
    hide Leb128.IsLeb, Leb128.Value, CapacityFor, Overruns, Print;
    var obus := OverrunStream();
    var filling, large := obus[1], obus[2];
    ShortLength();
    ThreeByteLength(0xF0, 0x9F, 0x1F);
    ThreeByteLength(0xBC, 0xCF, 0x24);
    assert obus[0].Valid() && filling.Valid() && large.Valid();
    assert obus[1..] == [filling, large] && obus[1..][1..] == [large];
    FillsBuffer();
    OverrunExample();
  }

  lemma {:induction false} ShortLength()
    ensures Leb128.IsLeb([0]) && Leb128.Value([0]) == 0
  {
    assert Leb128.Value([]) == 0;
    var s: seq<u8> := [0];
    assert s[1..] == [];
  }

  lemma {:induction false} FillsBuffer()
    ensures CapacityFor(OBU_BUFFER_SIZE, 2, 4, 511_984) == OBU_BUFFER_SIZE
  {
  }

  // How many OBUs come before the next temporal delimiter, and what scanning them gives.
  datatype ListScan = ListOverran | ListScanned(count: nat, capacity: nat)

  ghost function ScanList(obus: seq<Obu>, buffered: nat, capacity: nat): ListScan
    requires AllValid(obus) && buffered <= capacity
    decreases |obus|
  {
    if obus == [] then ListScanned(0, GrownForHeader(capacity, buffered))
    else
      var o := obus[0];
      var c, n := Capacity(o, buffered, capacity), |o.Bytes()|;
      if !ObuFits(o, buffered, capacity) || buffered + n > c then ListOverran
      else if o.IsDelimiter() then ListScanned(0, c)
      else
        match ScanList(obus[1..], buffered + n, c)
        case ListOverran => ListOverran
        case ListScanned(count, capacity') => ListScanned(count + 1, capacity')
  }

  lemma {:induction false} ScanListBounds(obus: seq<Obu>, buffered: nat, capacity: nat)
    requires AllValid(obus) && buffered <= capacity
    ensures
      var r := ScanList(obus, buffered, capacity);
      r.ListScanned? ==>
        && r.count <= |obus| && (r.count < |obus| ==> obus[r.count].IsDelimiter())
        && (forall i :: 0 <= i < r.count ==> !obus[i].IsDelimiter())
        && r.capacity >= (if r.count < |obus| then |obus[r.count].Bytes()| else 0)
    decreases |obus|
  {
    hide Capacity, ObuFits;
    if obus != [] {
      var o := obus[0];
      var c, n := Capacity(o, buffered, capacity), |o.Bytes()|;
      if buffered + n <= c {
        ScanListBounds(obus[1..], buffered + n, c);
      }
    }
  }

  lemma {:induction false} BytesOfPrefix(obus: seq<Obu>, count: nat)
    requires AllValid(obus) && 0 < count <= |obus|
    ensures Bytes(obus[..count]) == obus[0].Bytes() + Bytes(obus[1..][..count - 1])
  {
    assert obus[..count][1..] == obus[1..][..count - 1];
  }

  // Scanning the bytes of a list of OBUs stops where scanning the list does.
  lemma {:induction false} ScanUnitOfList(obus: seq<Obu>, buffered: nat, capacity: nat)
    requires AllValid(obus) && buffered <= capacity
    ensures
      var k := ScanList(obus, buffered, capacity);
      ScanUnit(Bytes(obus), buffered, capacity) ==
        if k.ListOverran? || k.count > |obus| then UnitOverran
        else
          var next := if k.count < |obus| then |obus[k.count].Bytes()| else 0;
          UnitScanned(|Bytes(obus[..k.count])|, next, k.capacity, k.count == |obus|)
    decreases |obus|
  {
    hide ScanOne, CapacityAfter, Capacity, ObuFits, GrownForHeader;
    ScanListBounds(obus, buffered, capacity);
    if obus == [] {
      ScanOneOfNothing(buffered, capacity);
    } else {
      var o, rest := obus[0], obus[1..];
      ScanOneOfObu(o, Bytes(rest), buffered, capacity);
      assert (o.Bytes() + Bytes(rest))[|o.Bytes()|..] == Bytes(rest);
      var c, n := Capacity(o, buffered, capacity), |o.Bytes()|;
      if ObuFits(o, buffered, capacity) && !o.IsDelimiter() {
        ScanUnitOfList(rest, buffered + n, c);
        var k := ScanList(rest, buffered + n, c);
        ScanListBounds(rest, buffered + n, c);
        if k.ListScanned? {
          BytesOfPrefix(obus, k.count + 1);
        }
      }
    }
  }

  lemma {:induction false} ScanOneOfNothing(buffered: nat, capacity: nat)
    requires buffered <= capacity
    ensures ScanOne([], buffered, capacity) == Read(0, 0, false)
        && CapacityAfter([], buffered, capacity) == GrownForHeader(capacity, buffered)
  {
  }

  // The stream fits when its first unit does and the rest does from there.
  lemma {:induction false} FitsOfList(obus: seq<Obu>, buffered: nat, capacity: nat)
    requires AllValid(obus) && buffered <= capacity
    ensures
      var k := ScanList(obus, buffered, capacity);
      Fits(obus, buffered, capacity) <==>
        && k.ListScanned? && k.count <= |obus|
        && (k.count < |obus| ==>
          |obus[k.count].Bytes()| <= k.capacity && Fits(obus[k.count + 1..], |obus[k.count].Bytes()|, k.capacity))
    decreases |obus|
  {
    hide Capacity, ObuFits;
    ScanListBounds(obus, buffered, capacity);
    if obus != [] {
      var o := obus[0];
      var c, n := Capacity(o, buffered, capacity), |o.Bytes()|;
      if ObuFits(o, buffered, capacity) && buffered + n <= c && !o.IsDelimiter() {
        FitsOfList(obus[1..], buffered + n, c);
        var k := ScanList(obus[1..], buffered + n, c);
        if k.ListScanned? && k.count < |obus[1..]| {
          assert obus[1..][k.count + 1..] == obus[k.count + 2..];
        }
      }
    }
  }

  lemma {:induction false} UnitsOfList(current: seq<Obu>, obus: seq<Obu>, k: nat)
    requires k <= |obus| && (k < |obus| ==> obus[k].IsDelimiter())
    requires forall i :: 0 <= i < k ==> !obus[i].IsDelimiter()
    ensures Units(current, obus) == [current + obus[..k]] + if k == |obus| then [] else Units([obus[k]], obus[k + 1..])
  {
    UnitsOfFirst(current, obus[..k], obus[k..]);
    assert obus[..k] + obus[k..] == obus;
  }

  ghost function UnitBytes(units: seq<seq<Obu>>): (s: seq<seq<u8>>)
    requires forall i :: 0 <= i < |units| ==> AllValid(units[i])
    ensures |s| == |units|
  {
    seq(|units|, i requires 0 <= i < |units| => Bytes(units[i]))
  }

  lemma {:induction false} UnitsValid(current: seq<Obu>, obus: seq<Obu>)
    requires AllValid(current) && AllValid(obus)
    ensures forall i :: 0 <= i < |Units(current, obus)| ==> AllValid(Units(current, obus)[i])
    decreases |obus|
  {
    if obus != [] {
      if obus[0].IsDelimiter() {
        UnitsValid([obus[0]], obus[1..]);
      } else {
        UnitsValid(current + [obus[0]], obus[1..]);
      }
    }
  }

  lemma {:induction false} BytesOfConcat(a: seq<Obu>, b: seq<Obu>)
    requires AllValid(a) && AllValid(b)
    ensures AllValid(a + b) && Bytes(a + b) == Bytes(a) + Bytes(b)
    decreases |a|
  {
    hide Obu.Valid, Obu.Bytes;
    if a == [] {
      assert a + b == b;
    } else {
      FirstObu(a);
      assert (a + b)[1..] == a[1..] + b && (a + b)[0] == a[0];
      BytesOfConcat(a[1..], b);
      Regroup(a[0].Bytes(), Bytes(a[1..]), Bytes(b));
    }
  }

  lemma {:induction false} FirstObu(obus: seq<Obu>)
    requires AllValid(obus) && obus != []
    ensures ValidHeader(obus[0].header) && Bytes(obus) == obus[0].Bytes() + Bytes(obus[1..])
  {
    assert obus[0].Valid();
  }

  // The bytes of the units, one after the other, are the bytes of the stream.
  lemma {:induction false} UnitBytesPartition(units: seq<seq<Obu>>)
    requires forall i :: 0 <= i < |units| ==> AllValid(units[i])
    ensures AllValid(Flatten(units)) && Flatten(UnitBytes(units)) == Bytes(Flatten(units))
    decreases |units|
  {
    if units != [] {
      UnitBytesPartition(units[1..]);
      BytesOfConcat(units[0], Flatten(units[1..]));
      assert UnitBytes(units)[1..] == UnitBytes(units[1..]);
    }
  }

  lemma {:induction false} BytesOfSplit(obus: seq<Obu>, k: nat)
    requires AllValid(obus) && k < |obus|
    ensures Bytes(obus) == Bytes(obus[..k]) + obus[k].Bytes() + Bytes(obus[k + 1..])
  {
    BytesOfConcat(obus[..k], obus[k..]);
    assert obus[..k] + obus[k..] == obus && obus[k..][1..] == obus[k + 1..];
  }

  // What one call of the reader does to a well-formed stream: it returns the bytes of the
  // current unit and holds the delimiter of the next one.
  lemma {:induction false} OneUnit(cur: Obu, rest: seq<Obu>, capacity: nat)
    requires cur.Valid() && AllValid(rest) && |cur.Bytes()| <= capacity
    ensures
      var k, s := ScanList(rest, |cur.Bytes()|, capacity), Bytes(rest);
      var scan := ScanUnit(s, |cur.Bytes()|, capacity);
      if k.ListOverran? then scan == UnitOverran && !Fits(rest, |cur.Bytes()|, capacity)
      else
        && k.count <= |rest| && AllValid([cur] + rest[..k.count])
        && scan.UnitScanned? && scan.capacity == k.capacity && scan.atEof == (k.count == |rest|)
        && scan.body + scan.next <= |s| && cur.Bytes() + s[..scan.body] == Bytes([cur] + rest[..k.count])
        && (k.count == |rest| ==>
          && Units([cur], rest) == [[cur] + rest[..k.count]] && Fits(rest, |cur.Bytes()|, capacity))
        && (k.count < |rest| ==>
          var next, after := rest[k.count], rest[k.count + 1..];
          && s[scan.body..scan.body + scan.next] == next.Bytes() && s[scan.body + scan.next..] == Bytes(after)
          && Units([cur], rest) == [[cur] + rest[..k.count]] + Units([next], after)
          && |next.Bytes()| <= k.capacity
          && (Fits(rest, |cur.Bytes()|, capacity) <==> Fits(after, |next.Bytes()|, k.capacity)))
  {
    hide ScanUnit, ScanList, Fits, Units;
    var b := |cur.Bytes()|;
    ScanListBounds(rest, b, capacity);
    ScanUnitOfList(rest, b, capacity);
    FitsOfList(rest, b, capacity);
    var k := ScanList(rest, b, capacity);
    if k.ListScanned? {
      UnitsOfList([cur], rest, k.count);
      assert ([cur] + rest[..k.count])[1..] == rest[..k.count];
      if k.count < |rest| {
        BytesOfSplit(rest, k.count);
      } else {
        assert rest[..k.count] == rest;
      }
    }
  }

  // Between calls: the reader holds the first OBU of the current unit, the rest of the
  // stream is unread, and the units to come complete those returned so far.
  ghost predicate Pending(cur: Obu, rest: seq<Obu>, held: seq<u8>, left: seq<u8>, capacity: nat,
                          units: seq<seq<u8>>, all: seq<seq<u8>>, fits: bool) {
    && cur.Valid() && AllValid(rest) && held == cur.Bytes() && left == Bytes(rest) && |held| <= capacity
    && (forall i :: 0 <= i < |Units([cur], rest)| ==> AllValid(Units([cur], rest)[i]))
    && units + UnitBytes(Units([cur], rest)) == all && (fits <==> Fits(rest, |held|, capacity))
  }

  lemma {:induction false} PendingStep(cur: Obu, rest: seq<Obu>, held: seq<u8>, left: seq<u8>, capacity: nat,
                    units: seq<seq<u8>>, all: seq<seq<u8>>, fits: bool)
    returns (cur': Obu, rest': seq<Obu>)
    requires |held| <= capacity && Pending(cur, rest, held, left, capacity, units, all, fits)
    ensures
      match ScanUnit(left, |held|, capacity)
      case UnitFailed => false
      case UnitOverran => !fits
      case UnitScanned(body, next, c, atEof) =>
        && body + next <= |left|
        && var units' := units + [held + left[..body]];
        if atEof then fits && units' == all
        else next > 0 && Pending(cur', rest', left[body..body + next], left[body + next..], c, units', all, fits)
  {
    hide ScanUnit, Fits, ScanList, Units, Obu.Valid;
    cur', rest' := cur, rest;
    OneUnit(cur, rest, capacity);
    var k := ScanList(rest, |held|, capacity);
    if k.ListScanned? && k.count < |rest| {
      cur', rest' := rest[k.count], rest[k.count + 1..];
      UnitsValid([cur'], rest');
      UnitBytesCons([cur] + rest[..k.count], Units([cur'], rest'));
    }
  }

  lemma {:induction false} UnitBytesCons(unit: seq<Obu>, units: seq<seq<Obu>>)
    requires AllValid(unit) && forall i :: 0 <= i < |units| ==> AllValid(units[i])
    ensures UnitBytes([unit] + units) == [Bytes(unit)] + UnitBytes(units)
  {
    hide Bytes, Obu.Valid;
  }

  // Opening a stream the application accepts.
  method Detect(contents: seq<u8>) returns (reader: ObuReader)
    requires Detects(contents) && ScanHeader(contents).sized
    ensures fresh(reader) && fresh(reader.buffer) && fresh(reader.file) && reader.file.contents == contents
    ensures
      var h := ScanHeader(contents);
      && reader.Valid() && !reader.file.eof && reader.buffer.Length == OBU_BUFFER_SIZE
      && reader.file.pos == reader.bytesBuffered == |reader.held| == |h.raw| + h.payload <= |contents|
      && reader.held == contents[..reader.bytesBuffered]
  {
    hide ScanHeader;
    reader := new ObuReader(contents);
    var ok := reader.FileIsObu();
  }

  lemma {:induction false} StartOfStream(obus: seq<Obu>)
    requires WellFormed(obus)
    ensures obus != [] && AllValid(obus) && AllValid(obus[1..]) && obus[0].Valid() && ValidHeader(obus[0].header)
    ensures forall i :: 0 <= i < |TemporalUnits(obus)| ==> AllValid(TemporalUnits(obus)[i])
    ensures
      var cur, rest, contents := obus[0], obus[1..], Bytes(obus);
      var n := |cur.Bytes()|;
      && ScanHeader(contents) == ScanObu(Print(cur.header) + cur.length, |cur.payload|, cur.header, true)
      && n == |Print(cur.header) + cur.length| + |cur.payload| <= OBU_BUFFER_SIZE && n <= |contents|
      && Pending(cur, rest, contents[..n], contents[n..], OBU_BUFFER_SIZE, [], UnitBytes(TemporalUnits(obus)),
                 Fits(rest, n, OBU_BUFFER_SIZE))
      && cur.header.obuType in {TEMPORAL_DELIMITER, SEQUENCE_HEADER}
      && (cur.header.obuType == TEMPORAL_DELIMITER ==> cur.payload == [])
  {
    hide ScanHeader, Fits, Units, Print, Leb128.IsLeb, Leb128.Value;
    var cur, rest := obus[0], obus[1..];
    UnitsValid([cur], rest);
    ScanHeaderOfObu(cur, Bytes(rest));
    assert Bytes(obus)[|cur.Bytes()|..] == Bytes(rest);
  }

  // The decode loop over a whole file: detection, then temporal units until none is left.
  method ReadStream(contents: seq<u8>, ghost obus: seq<Obu>)
    returns (detected: bool, units: seq<seq<u8>>, status: UnitStatus)
    requires WellFormed(obus) && contents == Bytes(obus)
    ensures detected
    ensures forall i :: 0 <= i < |TemporalUnits(obus)| ==> AllValid(TemporalUnits(obus)[i])
    ensures |obus[0].Bytes()| <= OBU_BUFFER_SIZE
    ensures
      if Fits(obus[1..], |obus[0].Bytes()|, OBU_BUFFER_SIZE) then
        status == Stopped && units == UnitBytes(TemporalUnits(obus))
      else status == Overrun
  {
    hide ScanUnit, ScanHeader, Fits, Units, Print, Leb128.IsLeb, Leb128.Value, Pending, AllValid, Obu.Valid, WellFormed,
      Bytes, Obu.Bytes, TemporalUnits, UnitBytes, ValidHeader;
    StartOfStream(obus);
    ghost var cur, rest := obus[0], obus[1..];
    ghost var all, fits := UnitBytes(TemporalUnits(obus)), Fits(rest, |cur.Bytes()|, OBU_BUFFER_SIZE);
    var reader := Detect(contents);
    detected := true;
    units := [];
    status := Returned;
    while status == Returned
      invariant fresh(reader) && fresh(reader.buffer) && fresh(reader.file) && reader.file.contents == contents
      invariant reader.Valid() && reader.file.pos <= |contents|
      invariant status == Returned ==> reader.bytesBuffered == |reader.held| <= reader.buffer.Length
      invariant status == Returned && !reader.file.eof ==>
        Pending(cur, rest, reader.held, contents[reader.file.pos..], reader.buffer.Length, units, all, fits)
      invariant (reader.file.eof && status == Returned) || status == Stopped ==> fits && units == all
      invariant status == Overrun ==> !fits
      decreases status.Returned?, !reader.file.eof, |contents| - reader.file.pos
    {
      ghost var cur', rest' := cur, rest;
      if !reader.file.eof {
        cur', rest' := PendingStep(cur, rest, reader.held, contents[reader.file.pos..], reader.buffer.Length, units,
                                   all, fits);
      }
      var unit: seq<u8>;
      status, unit := reader.ReadTemporalUnit();
      if status == Returned {
        units := units + [unit];
      }
      cur, rest := cur', rest';
    }
  }
}
