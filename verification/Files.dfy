/** The C file operations the applications use, on byte sequences. */
module Files {
  import opened MachineInts

  class InputFile {
    const contents: seq<u8>
    var pos: nat
    var eof: bool

    ghost predicate Valid()
      reads this
    {
      pos <= |contents|
    }

    constructor (contents: seq<u8>)
      ensures Valid() && this.contents == contents && pos == 0 && !eof
    {
      this.contents := contents;
      pos, eof := 0, false;
    }

    // fread of n bytes: a short count sets the end-of-file flag.
    method Read(n: nat) returns (data: seq<u8>)
      requires Valid()
      modifies this
      ensures Valid() && old(pos) <= pos && data == contents[old(pos)..pos]
      ensures |data| == if old(pos) + n <= |contents| then n else |contents| - old(pos)
      ensures eof == (old(eof) || |data| < n)
    {
      var count := if pos + n <= |contents| then n else |contents| - pos;
      data := contents[pos..pos + count];
      pos := pos + count;
      eof := eof || count < n;
    }

    method Rewind()
      modifies this
      ensures Valid() && pos == 0 && !eof
    {
      pos, eof := 0, false;
    }
  }

  class OutputFile {
    var contents: seq<u8>

    constructor ()
      ensures contents == []
    {
      contents := [];
    }

    // fwrite
    method Write(data: seq<u8>)
      modifies this
      ensures contents == old(contents) + data
    {
      contents := contents + data;
    }
  }
}
