module Md5Transform {
  import opened MachineInts
  import opened Md5Rfc
  import opened Md5Rotation

  // The four core functions as the code writes them; the first is rewritten to save an operation.
  function F1(x: Word, y: Word, z: Word): Word { FromBits(BitsOfF1(Bits(x), Bits(y), Bits(z))) }

  function BitsOfF1(x: bv32, y: bv32, z: bv32): bv32 { z ^ (x & (y ^ z)) }

  function F2(x: Word, y: Word, z: Word): Word { F1(z, x, y) }

  function F3(x: Word, y: Word, z: Word): Word { FromBits(Bits(x) ^ Bits(y) ^ Bits(z)) }

  function F4(x: Word, y: Word, z: Word): Word { FromBits(Bits(y) ^ (Bits(x) | !Bits(z))) }

  function Core(round: nat, x: Word, y: Word, z: Word): Word {
    match round
    case 0 => F1(x, y, z)
    case 1 => F2(x, y, z)
    case 2 => F3(x, y, z)
    case _ => F4(x, y, z)
  }

  // The central step: w += f + input, w = w rotated left by s, plus x.
  function Md5Step(f: Word, w: Word, x: Word, input: Word, s: nat): Word
    requires 0 < s < 32
  {
    Plus(Rotate(Plus(w, Plus(f, input)), s), x)
  }

  lemma {:induction false} SelectBits(a: bv32, b: bv32, c: bv32)
    ensures c ^ (a & (b ^ c)) == (a & b) | (!a & c)
    ensures b ^ (c & (a ^ b)) == (a & c) | (b & !c)
  {
  }

  lemma {:induction false} SelectF(a: bv32, b: bv32, c: bv32)
    ensures BitsOfF1(a, b, c) == BitsOfF(a, b, c) && BitsOfF1(c, a, b) == BitsOfG(a, b, c)
  {
    SelectBits(a, b, c);
  }

  // The rewritten core functions are the RFC's F and G bit for bit.
  lemma {:induction false} F1IsF(x: Word, y: Word, z: Word)
    ensures F1(x, y, z) == F(x, y, z)
  {
    hide Bits, FromBits, BitsOfF, BitsOfF1;
    SelectF(Bits(x), Bits(y), Bits(z));
  }

  lemma {:induction false} F2IsG(x: Word, y: Word, z: Word)
    ensures F2(x, y, z) == G(x, y, z)
  {
    hide Bits, FromBits, BitsOfG, BitsOfF1;
    SelectF(Bits(x), Bits(y), Bits(z));
  }

  lemma {:induction false} CoreIsAuxiliary(round: nat, x: Word, y: Word, z: Word)
    ensures Core(round, x, y, z) == Auxiliary(round, x, y, z)
  {
    assert F3(x, y, z) == H(x, y, z) && F4(x, y, z) == I(x, y, z);
    hide F1, F2, F3, F4, F, G, H, I;
    F1IsF(x, y, z);
    F2IsG(x, y, z);
  }

  lemma {:induction false} PlusCommutes(x: Word, y: Word)
    ensures Plus(x, y) == Plus(y, x)
  {
  }

  lemma {:induction false} StepIsMix(i: nat, w: Word, x: Word, y: Word, z: Word, words: seq<Word>)
    requires i < 64 && |words| == 16
    ensures Md5Step(Core(i / 16, x, y, z), w, x, Plus(words[WordIndex(i)], Sine(i)), Rotation(i))
        == Mix(i, w, x, y, z, words)
  {
    CoreIsAuxiliary(i / 16, x, y, z);
    hide F1, F2, F3, F4, Core, Auxiliary, Rotate, RotateLeft, WordIndex, Rotation, Sine, Plus;
    var sum := Plus(w, Plus(Core(i / 16, x, y, z), Plus(words[WordIndex(i)], Sine(i))));
    RotateIsLeft(sum, Rotation(i));
    PlusCommutes(x, RotateLeft(sum, Rotation(i)));
  }

  lemma {:induction false} NextOperation(start: State, words: seq<Word>, i: nat)
    requires |words| == 16 && i < 64
    ensures Operations(start, words, i + 1) == Operation(Operations(start, words, i), words, i)
  {
    hide Operation;
  }

  // Operation i, in the code's terms: the register whose turn it is, updated by one step.
  lemma {:induction false} OperationIsStep(st: State, words: seq<Word>, i: nat)
    requires |words| == 16 && i < 64
    ensures
      var input, s, r := Plus(words[WordIndex(i)], Sine(i)), Rotation(i), i / 16;
      Operation(st, words, i) ==
        match i % 4
        case 0 => st.(a := Md5Step(Core(r, st.b, st.c, st.d), st.a, st.b, input, s))
        case 1 => st.(d := Md5Step(Core(r, st.a, st.b, st.c), st.d, st.a, input, s))
        case 2 => st.(c := Md5Step(Core(r, st.d, st.a, st.b), st.c, st.d, input, s))
        case _ => st.(b := Md5Step(Core(r, st.c, st.d, st.a), st.b, st.c, input, s))
  {
    hide F1, F2, F3, F4, Core, Auxiliary, Rotate, RotateLeft, WordIndex, Rotation, Sine, Plus, Mix, Md5Step;
    StepIsMix(i, st.a, st.b, st.c, st.d, words);
    StepIsMix(i, st.d, st.a, st.b, st.c, words);
    StepIsMix(i, st.c, st.d, st.a, st.b, words);
    StepIsMix(i, st.b, st.c, st.d, st.a, words);
  }

  // Four steps in a row update a, d, c and b once each.
  lemma {:induction false} FourSteps(start: State, words: seq<Word>, i: nat, st: State)
    requires |words| == 16 && i + 4 <= 64 && i % 4 == 0
    requires st == Operations(start, words, i)
    ensures
      var a := Md5Step(Core(i / 16, st.b, st.c, st.d), st.a, st.b, Plus(words[WordIndex(i)], Sine(i)), Rotation(i));
      var d := Md5Step(Core(i / 16, a, st.b, st.c), st.d, a, Plus(words[WordIndex(i + 1)], Sine(i + 1)),
                       Rotation(i + 1));
      var c := Md5Step(Core(i / 16, d, a, st.b), st.c, d, Plus(words[WordIndex(i + 2)], Sine(i + 2)), Rotation(i + 2));
      var b := Md5Step(Core(i / 16, c, d, a), st.b, c, Plus(words[WordIndex(i + 3)], Sine(i + 3)), Rotation(i + 3));
      State(a, b, c, d) == Operations(start, words, i + 4)
  {
    hide *;
    var s1 := Operation(st, words, i);
    var s2 := Operation(s1, words, i + 1);
    var s3 := Operation(s2, words, i + 2);
    OperationIsStep(st, words, i);
    OperationIsStep(s1, words, i + 1);
    OperationIsStep(s2, words, i + 2);
    OperationIsStep(s3, words, i + 3);
    NextOperation(start, words, i);
    NextOperation(start, words, i + 1);
    NextOperation(start, words, i + 2);
    NextOperation(start, words, i + 3);
  }

  method Round1(a0: Word, b0: Word, c0: Word, d0: Word, words: seq<Word>, ghost start: State)
    returns (a: Word, b: Word, c: Word, d: Word)
    requires |words| == 16 && State(a0, b0, c0, d0) == Operations(start, words, 0)
    ensures State(a, b, c, d) == Operations(start, words, 16)
  {
    hide F1, F2, F3, F4, F, G, H, I, Auxiliary, Md5Step, Rotate, RotateLeft, Mix, Plus, Operation, Operations;
    a, b, c, d := a0, b0, c0, d0;
    FourSteps(start, words, 0, State(a, b, c, d));
    a := Md5Step(F1(b, c, d), a, b, Plus(words[0], 0xd76aa478), 7);
    d := Md5Step(F1(a, b, c), d, a, Plus(words[1], 0xe8c7b756), 12);
    c := Md5Step(F1(d, a, b), c, d, Plus(words[2], 0x242070db), 17);
    b := Md5Step(F1(c, d, a), b, c, Plus(words[3], 0xc1bdceee), 22);
    FourSteps(start, words, 4, State(a, b, c, d));
    a := Md5Step(F1(b, c, d), a, b, Plus(words[4], 0xf57c0faf), 7);
    d := Md5Step(F1(a, b, c), d, a, Plus(words[5], 0x4787c62a), 12);
    c := Md5Step(F1(d, a, b), c, d, Plus(words[6], 0xa8304613), 17);
    b := Md5Step(F1(c, d, a), b, c, Plus(words[7], 0xfd469501), 22);
    FourSteps(start, words, 8, State(a, b, c, d));
    a := Md5Step(F1(b, c, d), a, b, Plus(words[8], 0x698098d8), 7);
    d := Md5Step(F1(a, b, c), d, a, Plus(words[9], 0x8b44f7af), 12);
    c := Md5Step(F1(d, a, b), c, d, Plus(words[10], 0xffff5bb1), 17);
    b := Md5Step(F1(c, d, a), b, c, Plus(words[11], 0x895cd7be), 22);
    FourSteps(start, words, 12, State(a, b, c, d));
    a := Md5Step(F1(b, c, d), a, b, Plus(words[12], 0x6b901122), 7);
    d := Md5Step(F1(a, b, c), d, a, Plus(words[13], 0xfd987193), 12);
    c := Md5Step(F1(d, a, b), c, d, Plus(words[14], 0xa679438e), 17);
    b := Md5Step(F1(c, d, a), b, c, Plus(words[15], 0x49b40821), 22);
  }

  method Round2(a0: Word, b0: Word, c0: Word, d0: Word, words: seq<Word>, ghost start: State)
    returns (a: Word, b: Word, c: Word, d: Word)
    requires |words| == 16 && State(a0, b0, c0, d0) == Operations(start, words, 16)
    ensures State(a, b, c, d) == Operations(start, words, 32)
  {
    hide F1, F2, F3, F4, F, G, H, I, Auxiliary, Md5Step, Rotate, RotateLeft, Mix, Plus, Operation, Operations;
    a, b, c, d := a0, b0, c0, d0;
    FourSteps(start, words, 16, State(a, b, c, d));
    a := Md5Step(F2(b, c, d), a, b, Plus(words[1], 0xf61e2562), 5);
    d := Md5Step(F2(a, b, c), d, a, Plus(words[6], 0xc040b340), 9);
    c := Md5Step(F2(d, a, b), c, d, Plus(words[11], 0x265e5a51), 14);
    b := Md5Step(F2(c, d, a), b, c, Plus(words[0], 0xe9b6c7aa), 20);
    FourSteps(start, words, 20, State(a, b, c, d));
    a := Md5Step(F2(b, c, d), a, b, Plus(words[5], 0xd62f105d), 5);
    d := Md5Step(F2(a, b, c), d, a, Plus(words[10], 0x02441453), 9);
    c := Md5Step(F2(d, a, b), c, d, Plus(words[15], 0xd8a1e681), 14);
    b := Md5Step(F2(c, d, a), b, c, Plus(words[4], 0xe7d3fbc8), 20);
    FourSteps(start, words, 24, State(a, b, c, d));
    a := Md5Step(F2(b, c, d), a, b, Plus(words[9], 0x21e1cde6), 5);
    d := Md5Step(F2(a, b, c), d, a, Plus(words[14], 0xc33707d6), 9);
    c := Md5Step(F2(d, a, b), c, d, Plus(words[3], 0xf4d50d87), 14);
    b := Md5Step(F2(c, d, a), b, c, Plus(words[8], 0x455a14ed), 20);
    FourSteps(start, words, 28, State(a, b, c, d));
    a := Md5Step(F2(b, c, d), a, b, Plus(words[13], 0xa9e3e905), 5);
    d := Md5Step(F2(a, b, c), d, a, Plus(words[2], 0xfcefa3f8), 9);
    c := Md5Step(F2(d, a, b), c, d, Plus(words[7], 0x676f02d9), 14);
    b := Md5Step(F2(c, d, a), b, c, Plus(words[12], 0x8d2a4c8a), 20);
  }

  method Round3(a0: Word, b0: Word, c0: Word, d0: Word, words: seq<Word>, ghost start: State)
    returns (a: Word, b: Word, c: Word, d: Word)
    requires |words| == 16 && State(a0, b0, c0, d0) == Operations(start, words, 32)
    ensures State(a, b, c, d) == Operations(start, words, 48)
  {
    hide F1, F2, F3, F4, F, G, H, I, Auxiliary, Md5Step, Rotate, RotateLeft, Mix, Plus, Operation, Operations;
    a, b, c, d := a0, b0, c0, d0;
    FourSteps(start, words, 32, State(a, b, c, d));
    a := Md5Step(F3(b, c, d), a, b, Plus(words[5], 0xfffa3942), 4);
    d := Md5Step(F3(a, b, c), d, a, Plus(words[8], 0x8771f681), 11);
    c := Md5Step(F3(d, a, b), c, d, Plus(words[11], 0x6d9d6122), 16);
    b := Md5Step(F3(c, d, a), b, c, Plus(words[14], 0xfde5380c), 23);
    FourSteps(start, words, 36, State(a, b, c, d));
    a := Md5Step(F3(b, c, d), a, b, Plus(words[1], 0xa4beea44), 4);
    d := Md5Step(F3(a, b, c), d, a, Plus(words[4], 0x4bdecfa9), 11);
    c := Md5Step(F3(d, a, b), c, d, Plus(words[7], 0xf6bb4b60), 16);
    b := Md5Step(F3(c, d, a), b, c, Plus(words[10], 0xbebfbc70), 23);
    FourSteps(start, words, 40, State(a, b, c, d));
    a := Md5Step(F3(b, c, d), a, b, Plus(words[13], 0x289b7ec6), 4);
    d := Md5Step(F3(a, b, c), d, a, Plus(words[0], 0xeaa127fa), 11);
    c := Md5Step(F3(d, a, b), c, d, Plus(words[3], 0xd4ef3085), 16);
    b := Md5Step(F3(c, d, a), b, c, Plus(words[6], 0x04881d05), 23);
    FourSteps(start, words, 44, State(a, b, c, d));
    a := Md5Step(F3(b, c, d), a, b, Plus(words[9], 0xd9d4d039), 4);
    d := Md5Step(F3(a, b, c), d, a, Plus(words[12], 0xe6db99e5), 11);
    c := Md5Step(F3(d, a, b), c, d, Plus(words[15], 0x1fa27cf8), 16);
    b := Md5Step(F3(c, d, a), b, c, Plus(words[2], 0xc4ac5665), 23);
  }

  method Round4(a0: Word, b0: Word, c0: Word, d0: Word, words: seq<Word>, ghost start: State)
    returns (a: Word, b: Word, c: Word, d: Word)
    requires |words| == 16 && State(a0, b0, c0, d0) == Operations(start, words, 48)
    ensures State(a, b, c, d) == Operations(start, words, 64)
  {
    hide F1, F2, F3, F4, F, G, H, I, Auxiliary, Md5Step, Rotate, RotateLeft, Mix, Plus, Operation, Operations;
    a, b, c, d := a0, b0, c0, d0;
    FourSteps(start, words, 48, State(a, b, c, d));
    a := Md5Step(F4(b, c, d), a, b, Plus(words[0], 0xf4292244), 6);
    d := Md5Step(F4(a, b, c), d, a, Plus(words[7], 0x432aff97), 10);
    c := Md5Step(F4(d, a, b), c, d, Plus(words[14], 0xab9423a7), 15);
    b := Md5Step(F4(c, d, a), b, c, Plus(words[5], 0xfc93a039), 21);
    FourSteps(start, words, 52, State(a, b, c, d));
    a := Md5Step(F4(b, c, d), a, b, Plus(words[12], 0x655b59c3), 6);
    d := Md5Step(F4(a, b, c), d, a, Plus(words[3], 0x8f0ccc92), 10);
    c := Md5Step(F4(d, a, b), c, d, Plus(words[10], 0xffeff47d), 15);
    b := Md5Step(F4(c, d, a), b, c, Plus(words[1], 0x85845dd1), 21);
    FourSteps(start, words, 56, State(a, b, c, d));
    a := Md5Step(F4(b, c, d), a, b, Plus(words[8], 0x6fa87e4f), 6);
    d := Md5Step(F4(a, b, c), d, a, Plus(words[15], 0xfe2ce6e0), 10);
    c := Md5Step(F4(d, a, b), c, d, Plus(words[6], 0xa3014314), 15);
    b := Md5Step(F4(c, d, a), b, c, Plus(words[13], 0x4e0811a1), 21);
    FourSteps(start, words, 60, State(a, b, c, d));
    a := Md5Step(F4(b, c, d), a, b, Plus(words[4], 0xf7537e82), 6);
    d := Md5Step(F4(a, b, c), d, a, Plus(words[11], 0xbd3af235), 10);
    c := Md5Step(F4(d, a, b), c, d, Plus(words[2], 0x2ad7d2bb), 15);
    b := Md5Step(F4(c, d, a), b, c, Plus(words[9], 0xeb86d391), 21);
  }

  // md5_transform: one block of sixteen words into the buffer.
  method Transform(buf: State, words: seq<Word>) returns (result: State)
    requires |words| == 16
    ensures result == Compress(buf, words)
  {
    hide Operation;
    var a, b, c, d := Round1(buf.a, buf.b, buf.c, buf.d, words, buf);
    a, b, c, d := Round2(a, b, c, d, words, buf);
    a, b, c, d := Round3(a, b, c, d, words, buf);
    a, b, c, d := Round4(a, b, c, d, words, buf);
    result := State(Plus(buf.a, a), Plus(buf.b, b), Plus(buf.c, c), Plus(buf.d, d));
  }
}
