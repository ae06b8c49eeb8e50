/** The streaming MD5 of Source/App/DecApp/EbMD5Utility.c. */
module Md5Streaming {
  import Memory
  import opened Arithmetic
  import opened MachineInts
  import opened Md5Rfc
  import opened Md5Transform
  import opened Sequences

  const WORD := 0x1_0000_0000

  // How the host lays a 32-bit word out in memory.
  function NativeWord(bigEndian: bool, b0: u8, b1: u8, b2: u8, b3: u8): Word {
    if bigEndian then LittleEndian(b3, b2, b1, b0) else LittleEndian(b0, b1, b2, b3)
  }

  function NativeBytes(bigEndian: bool, w: Word): (s: seq<u8>)
    ensures |s| == 4
  {
    var s := WordBytes(w);
    if bigEndian then [s[3], s[2], s[1], s[0]] else s
  }

  function NativeWords(bigEndian: bool, bytes: seq<u8>, n: nat): (words: seq<Word>)
    requires |bytes| == 4 * n
    ensures |words| == n
  {
    seq(n, i requires 0 <= i < n =>
      NativeWord(bigEndian, bytes[4 * i], bytes[4 * i + 1], bytes[4 * i + 2], bytes[4 * i + 3]))
  }

  // The buffer after the first n blocks of a message.
  function Chain(bigEndian: bool, message: seq<u8>, n: nat): State
    requires 64 * n <= |message|
    decreases n
  {
    if n == 0 then INITIAL
    else Compress(Chain(bigEndian, message, n - 1), NativeWords(bigEndian, message[64 * (n - 1)..64 * n], 16))
  }

  // What md5_final writes for a message: the last fourteen words come from memory,
  // the two length words are stored as words.
  function HostDigest(bigEndian: bool, message: seq<u8>): seq<u8> {
    var padded := message + PadBytes(|message|);
    var n := BlocksBeforeLast(|message|);
    var last := NativeWords(bigEndian, padded[64 * n..], 14) + [LengthLow(|message|), LengthHigh(|message|)];
    var st := Compress(Chain(bigEndian, padded, n), last);
    NativeBytes(bigEndian, st.a) + NativeBytes(bigEndian, st.b) + NativeBytes(bigEndian, st.c)
        + NativeBytes(bigEndian, st.d)
  }

  lemma {:induction false} ChainIsProcess(message: seq<u8>, n: nat)
    requires 64 * n <= |message|
    ensures Chain(false, message, n) == Process(message, n)
  {
    hide Compress;
    if n > 0 {
      ChainIsProcess(message, n - 1);
      var block := message[64 * (n - 1)..64 * n];
      assert NativeWords(false, block, 16) == BlockWords(block);
    }
  }

  // Bytes after the first n blocks do not matter to them.
  lemma {:induction false} ChainOfPrefix(bigEndian: bool, message: seq<u8>, more: seq<u8>, n: nat)
    requires 64 * n <= |message|
    ensures Chain(bigEndian, message + more, n) == Chain(bigEndian, message, n)
  {
    hide Compress;
    if n > 0 {
      ChainOfPrefix(bigEndian, message, more, n - 1);
      assert (message + more)[64 * (n - 1)..64 * n] == message[64 * (n - 1)..64 * n];
    }
  }

  // Words stored natively are read back as they were.
  lemma {:induction false} LastBlock(bigEndian: bool, block: seq<u8>, low: Word, high: Word)
    requires |block| == 64
    requires block[56..] == NativeBytes(bigEndian, low) + NativeBytes(bigEndian, high)
    ensures NativeWords(bigEndian, block, 16) == NativeWords(bigEndian, block[..56], 14) + [low, high]
  {
    hide LittleEndian, WordBytes;
    WordRoundTrip(low);
    WordRoundTrip(high);
    assert block[56..60] == NativeBytes(bigEndian, low) && block[60..] == NativeBytes(bigEndian, high);
  }

  // On a little-endian host the code computes the digest of RFC 1321.
  lemma {:induction false} LittleEndianDigest(message: seq<u8>)
    ensures HostDigest(false, message) == Digest(message)
  {
    hide Compress, PadBytes, BlocksBeforeLast, LittleEndian, WordBytes, LengthLow, LengthHigh;
    var padded := message + PadBytes(|message|);
    var lo, hi := LengthLow(|message|), LengthHigh(|message|);
    var n := BlocksBeforeLast(|message|);
    var lengths := WordBytes(lo) + WordBytes(hi);
    var all := Padded(message);
    assert all == padded + lengths;
    ChainIsProcess(all, n);
    ChainOfPrefix(false, padded, lengths, n);
    WordRoundTrip(lo);
    WordRoundTrip(hi);
    assert all[64 * n..64 * (n + 1)] == padded[64 * n..] + lengths;
    assert BlockWords(all[64 * n..64 * (n + 1)]) == NativeWords(false, padded[64 * n..], 14) + [lo, hi];
  }

  // byte_swap returns early on a big-endian host, so there a block is read as the RFC
  // reads it exactly when every one of its words is a palindrome.
  lemma {:induction false} BigEndianBlock(block: seq<u8>)
    requires |block| == 64
    ensures NativeWords(true, block, 16) == BlockWords(block) <==>
            forall i :: 0 <= i < 16 ==> block[4 * i] == block[4 * i + 3] && block[4 * i + 1] == block[4 * i + 2]
  {
    var u, v := NativeWords(true, block, 16), BlockWords(block);
    forall i | 0 <= i < 16
      ensures u[i] == v[i] <==> block[4 * i] == block[4 * i + 3] && block[4 * i + 1] == block[4 * i + 2]
    {
    }
    if u == v {
      forall i | 0 <= i < 16
        ensures block[4 * i] == block[4 * i + 3] && block[4 * i + 1] == block[4 * i + 2]
      {
        assert u[i] == v[i];
      }
    }
  }

  // Words whose bytes read the same both ways.
  ghost predicate Palindromes(bytes: seq<u8>) {
    forall i :: 0 <= i < |bytes| / 4 ==> bytes[4 * i] == bytes[4 * i + 3] && bytes[4 * i + 1] == bytes[4 * i + 2]
  }

  lemma {:induction false} ReadAlike(bytes: seq<u8>, n: nat)
    requires |bytes| == 4 * n && Palindromes(bytes)
    ensures NativeWords(true, bytes, n) == NativeWords(false, bytes, n)
  {
    hide LittleEndian;
  }

  lemma {:induction false} ChainAlike(message: seq<u8>, n: nat)
    requires 64 * n <= |message| && Palindromes(message)
    ensures Chain(true, message, n) == Chain(false, message, n)
  {
    hide Compress, NativeWords;
    if n > 0 {
      ChainAlike(message, n - 1);
      var block := message[64 * (n - 1)..64 * n];
      forall i | 0 <= i < 16
        ensures block[4 * i] == block[4 * i + 3] && block[4 * i + 1] == block[4 * i + 2]
      {
        assert 4 * (16 * (n - 1) + i) == 64 * (n - 1) + 4 * i;
      }
      ReadAlike(block, 16);
    }
  }

  // The bytes of every word are the other way round.
  ghost predicate IsTurned(t: seq<u8>, bytes: seq<u8>) {
    && |t| == |bytes|
    && forall i :: 0 <= i < |bytes| / 4 ==>
         && t[4 * i] == bytes[4 * i + 3] && t[4 * i + 1] == bytes[4 * i + 2]
         && t[4 * i + 2] == bytes[4 * i + 1] && t[4 * i + 3] == bytes[4 * i]
  }

  lemma {:induction false} StateTurned(a: Word, b: Word, c: Word, d: Word)
    ensures IsTurned(NativeBytes(true, a) + NativeBytes(true, b) + NativeBytes(true, c) + NativeBytes(true, d),
                     NativeBytes(false, a) + NativeBytes(false, b) + NativeBytes(false, c) + NativeBytes(false, d))
  {
    hide WordBytes;
  }

  // A big-endian host gives the digest with its words turned round for messages whose words are
  // palindromes once padded, as those of 0x80 0 0 are.
  lemma {:induction false} BigEndianDigest(message: seq<u8>)
    requires Palindromes(message + PadBytes(|message|))
    ensures IsTurned(HostDigest(true, message), Digest(message))
  {
    hide Compress, PadBytes, BlocksBeforeLast, LengthLow, LengthHigh, Chain, NativeWords, NativeBytes, Digest, IsTurned;
    var padded := message + PadBytes(|message|);
    var n := BlocksBeforeLast(|message|);
    ChainAlike(padded, n);
    var last := padded[64 * n..];
    forall i | 0 <= i < 14
      ensures last[4 * i] == last[4 * i + 3] && last[4 * i + 1] == last[4 * i + 2]
    {
      assert 4 * (16 * n + i) == 64 * n + 4 * i;
    }
    ReadAlike(last, 14);
    var st := Compress(Chain(false, padded, n),
                       NativeWords(false, last, 14) + [LengthLow(|message|), LengthHigh(|message|)]);
    StateTurned(st.a, st.b, st.c, st.d);
    LittleEndianDigest(message);
  }

  lemma {:induction false} BigEndianExample()
    ensures Palindromes([0x80, 0, 0] + PadBytes(3))
  {
  }

  // The byte counter: 64 bits kept as two words.
  function CounterLow(n: nat): u32 { n % WORD }

  function CounterHigh(n: nat): u32 { n / WORD % WORD }

  lemma {:induction false} CounterCarry(n: nat, len: nat)
    requires len < WORD
    ensures
      var t := CounterLow(n);
      var low := (t + len) % WORD;
      && low == CounterLow(n + len)
      && CounterHigh(n + len) == (if low < t then (CounterHigh(n) + 1) % WORD else CounterHigh(n))
  {
  }

  lemma {:induction false} CounterInBlock(n: nat)
    ensures CounterLow(n) % 64 == n % 64
  {
  }

  // The bit count from the byte counter: shifted left by three across the two words.
  lemma {:induction false} CounterBits(n: nat)
    ensures CounterLow(n) * 8 % WORD == LengthLow(n)
    ensures CounterHigh(n) * 8 % WORD + CounterLow(n) / 0x2000_0000 == LengthHigh(n)
  {
    var q, r := n / WORD, n % WORD;
    var e := r / 0x2000_0000;
    Quotient(r * 8, WORD, e, r * 8 - e * WORD);
    Quotient(n * 8, WORD, q * 8 + e, r * 8 - e * WORD);
    var q1, q0 := q / WORD, q % WORD;
    var f := q0 / 0x2000_0000;
    Quotient(q0 * 8, WORD, f, q0 * 8 - f * WORD);
    Quotient(q * 8 + e, WORD, q1 * 8 + f, q0 * 8 - f * WORD + e);
  }

  lemma {:induction false} BlockCount(n: nat, k: nat)
    requires 64 * k <= n < 64 * (k + 1)
    ensures n / 64 == k && n % 64 == n - 64 * k
  {
  }

  // Where the zeros of the padding lie.
  lemma {:induction false} PaddedBlocks(message: seq<u8>)
    ensures
      var n := |message|;
      var padded, k := message + PadBytes(n), n / 64;
      if n % 64 < 56 then
        k == BlocksBeforeLast(n) && padded[64 * k..] == message[64 * k..] + [0x80] + seq(55 - n % 64, _ => 0)
      else
        && k + 1 == BlocksBeforeLast(n) && padded[64 * (k + 1)..] == seq(56, _ => 0)
        && padded[64 * k..64 * (k + 1)] == message[64 * k..] + [0x80] + seq(63 - n % 64, _ => 0)
  {
  }

  // The buffered tail of a message and the first bytes of the next chunk make a block.
  lemma {:induction false} BlockAcross(message: seq<u8>, data: seq<u8>)
    requires |message| % 64 + |data| >= 64
    ensures
      var n := |message|;
      message[n / 64 * 64..] + data[..64 - n % 64] == (message + data)[n / 64 * 64..n / 64 * 64 + 64]
  {
  }

  class Md5Context {
    const bigEndian: bool
    const input: array<u8>
    var buf: State
    var bytesLow: u32
    var bytesHigh: u32
    ghost var message: seq<u8>  // all the bytes hashed so far

    ghost predicate Valid()
      reads this, input
    {
      && input.Length == 64
      && var n := |message|;
      && bytesLow == CounterLow(n) && bytesHigh == CounterHigh(n)
      && buf == Chain(bigEndian, message, n / 64)
      && input[..n % 64] == message[n / 64 * 64..]
    }

    // md5_init
    constructor (bigEndian: bool)
      ensures Valid() && message == [] && this.bigEndian == bigEndian && fresh(input)
    {
      this.bigEndian := bigEndian;
      buf := State(0x67452301, 0xefcdab89, 0x98badcfe, 0x10325476);
      bytesLow, bytesHigh := 0, 0;
      input := new u8[64];
      message := [];
    }

    // byte_swap on the first words of the input buffer: on a little-endian host it stores
    // every word back as it was, on a big-endian host it does nothing.
    method ByteSwap(words: nat)
      requires input.Length == 64 && 0 < words <= 16
      modifies input
      ensures input[..] == old(input[..])
    {
      if bigEndian { return; }
      for w := 0 to words
        invariant input[..] == old(input[..])
      {
        var p := 4 * w;
        var value := LittleEndian(input[p], input[p + 1], input[p + 2], input[p + 3]);
        BytesRoundTrip(input[p], input[p + 1], input[p + 2], input[p + 3]);
        hide WordBytes, LittleEndian;
        var s := WordBytes(value);
        input[p], input[p + 1], input[p + 2], input[p + 3] := s[0], s[1], s[2], s[3];
      }
    }

    // byte_swap and md5_transform on a full input buffer, which is block k of a message.
    method TransformInput(ghost all: seq<u8>, ghost k: nat)
      requires input.Length == 64 && 64 * (k + 1) <= |all| && input[..] == all[64 * k..64 * (k + 1)]
      requires buf == Chain(bigEndian, all, k)
      modifies this`buf, input
      ensures buf == Chain(bigEndian, all, k + 1)
    {
      hide Compress, NativeWords;
      ByteSwap(16);
      buf := Transform(buf, NativeWords(bigEndian, input[..], 16));
    }

    // The byte count of md5_update: add to the low word, carry into the high word.
    method Count(len: u32)
      requires bytesLow == CounterLow(|message|) && bytesHigh == CounterHigh(|message|)
      modifies this`bytesLow, this`bytesHigh
      ensures bytesLow == CounterLow(|message| + len) && bytesHigh == CounterHigh(|message| + len)
    {
      CounterCarry(|message|, len);
      hide CounterLow, CounterHigh;
      var t := bytesLow;
      bytesLow := (t + len) % WORD;
      if bytesLow < t { bytesHigh := (bytesHigh + 1) % WORD; }
    }

    // The 64-byte chunks of md5_update, and the remaining bytes.
    method Chunks(data: seq<u8>, at: nat, ghost all: seq<u8>, ghost k: nat)
      requires input.Length == 64 && at <= |data|
      requires 64 * k <= |all| && all[64 * k..] == data[at..] && buf == Chain(bigEndian, all, k)
      modifies this`buf, input
      ensures buf == Chain(bigEndian, all, |all| / 64) && input[..|all| % 64] == all[|all| / 64 * 64..]
    {
      hide Chain;
      ghost var j: nat := k;
      var from: nat, len := at, |data| - at;
      while len >= 64
        invariant 0 <= from && 0 <= len == |data| - from && 64 * j <= |all|
        invariant all[64 * j..] == data[from..] && buf == Chain(bigEndian, all, j)
      {
        Memory.Copy(input, 0, data[from..from + 64]);
        assert input[..] == all[64 * j..][..64];
        TransformInput(all, j);
        from := from + 64;
        len := len - 64;
        j := j + 1;
      }
      Memory.Copy(input, 0, data[from..]);
      BlockCount(|all|, j);
    }

    // md5_update
    method Update(data: seq<u8>)
      requires Valid() && |data| < WORD
      modifies this, input
      ensures Valid() && message == old(message) + data
    {
      hide Chain, CounterLow, CounterHigh;
      ghost var all, k := message + data, |message| / 64;
      CounterInBlock(|message|);
      ChainOfPrefix(bigEndian, message, data, k);
      var t := bytesLow;
      Count(|data|);
      t := 64 - t % 64;
      if t > |data| {
        Memory.Copy(input, 64 - t, data);
        BlockCount(|all|, k);
      } else {
        Memory.Copy(input, 64 - t, data[..t]);
        BlockAcross(message, data);
        assert input[..] == all[64 * k..64 * (k + 1)];
        TransformInput(all, k);
        Chunks(data, t, all, k + 1);
      }
      message := all;
    }

    // The padding of md5_final, up to the length.
    method Pad()
      requires Valid()
      modifies this`buf, input
      ensures
        var padded, k := message + PadBytes(|message|), BlocksBeforeLast(|message|);
        buf == Chain(bigEndian, padded, k) && input[..56] == padded[64 * k..]
    {
      hide Chain, PadBytes, BlocksBeforeLast;
      ghost var n, padded := |message|, message + PadBytes(|message|);
      ghost var k := n / 64;
      PaddedBlocks(message);
      CounterInBlock(n);
      ChainOfPrefix(bigEndian, message, PadBytes(n), k);
      var count: int := bytesLow % 64;
      var p: nat := count;
      input[p] := 0x80;
      p := p + 1;
      count := 56 - 1 - count;
      assert input[..p] == message[64 * k..] + [0x80];
      if count < 0 {
        Memory.Fill(input, p, 0, count + 8);
        assert input[..] == padded[64 * k..64 * (k + 1)];
        TransformInput(padded, k);
        k := k + 1;
        p := 0;
        count := 56;
      }
      Memory.Fill(input, p, 0, count);
      assert input[..56] == padded[64 * k..];
    }

    // md5_final: pads, appends the length and writes the digest; the context is wiped.
    method Final() returns (digest: seq<u8>)
      requires Valid()
      modifies this, input
      ensures digest == HostDigest(bigEndian, old(message))
      ensures buf == State(0, 0, 0, 0) && bytesLow == bytesHigh == 0 && input[..] == seq(64, _ => 0)
    {
      hide Chain, Compress, CounterLow, CounterHigh, NativeWords, LengthLow, LengthHigh, NativeBytes, PadBytes,
          BlocksBeforeLast;
      CounterBits(|message|);
      Pad();
      ghost var last := input[..56];
      ByteSwap(14);
      var low := bytesLow * 8 % WORD;
      var high := bytesHigh * 8 % WORD + bytesLow / 0x2000_0000;  // the bits of | do not overlap
      Memory.Copy(input, 56, NativeBytes(bigEndian, low) + NativeBytes(bigEndian, high));
      assert input[..56] == last;
      LastBlock(bigEndian, input[..], low, high);
      buf := Transform(buf, NativeWords(bigEndian, input[..], 16));
      digest := NativeBytes(bigEndian, buf.a) + NativeBytes(bigEndian, buf.b) +
                NativeBytes(bigEndian, buf.c) + NativeBytes(bigEndian, buf.d);
      Memory.Fill(input, 0, 0, 64);
      buf, bytesLow, bytesHigh, message := State(0, 0, 0, 0), 0, 0, [];
    }
  }

  // Any chunking of a message gives the digest of the whole of it.
  method DigestOfChunks(bigEndian: bool, chunks: seq<seq<u8>>) returns (digest: seq<u8>)
    requires forall c :: 0 <= c < |chunks| ==> |chunks[c]| < WORD
    ensures digest == HostDigest(bigEndian, Flatten(chunks))
    ensures !bigEndian ==> digest == Digest(Flatten(chunks))
  {
    hide HostDigest, Digest, Chain;
    var ctx := new Md5Context(bigEndian);
    for c := 0 to |chunks|
      invariant ctx.Valid() && ctx.bigEndian == bigEndian && ctx.message == Flatten(chunks[..c])
      invariant fresh(ctx) && fresh(ctx.input)
    {
      ctx.Update(chunks[c]);
      FlattenSnoc(chunks[..c], chunks[c]);
      assert chunks[..c + 1] == chunks[..c] + [chunks[c]];
    }
    assert chunks[..|chunks|] == chunks;
    digest := ctx.Final();
    LittleEndianDigest(Flatten(chunks));
  }
}
