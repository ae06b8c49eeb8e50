/** An answer of the test suite of RFC 1321 (appendix A.5), operation by operation. */
module Md5TestSuite {
  import opened Arithmetic
  import opened MachineInts
  import opened Md5Rfc

  // The block of the empty message: a one bit and zeros, and a length of zero.
  const BLOCK: seq<Word> := [0x80, 0, 0, 0, 0, 0, 0, 0, 0, 0, 0, 0, 0, 0, 0, 0]

  lemma {:induction false} Start() returns (st: State)
    ensures st == State(0x67452301, 0xefcdab89, 0x98badcfe, 0x10325476) == Operations(INITIAL, BLOCK, 0)
  {
    st := INITIAL;
  }

  lemma {:induction false} Sum4(w: Word, f: Word, k: Word, t: Word)
    ensures Plus(w, Plus(f, Plus(k, t))) == (w + f + k + t) % 0x1_0000_0000
  {
    PlusMore(f, k + t);
    PlusMore(w, k + t + f);
  }

  lemma {:induction false} PlusMore(w: Word, n: nat)
    ensures Plus(w, n % 0x1_0000_0000) == (n + w) % 0x1_0000_0000
  {
    var m := 0x1_0000_0000;
    Quotient(n % m, m, 0, n % m);
    SumModulo(n % m, n, w, m);
  }

  lemma {:induction false} MixIs(i: nat, w: Word, x: Word, y: Word, z: Word, f: Word, k: Word, t: Word)
    requires i < 64 && Auxiliary(i / 16, x, y, z) == f && BLOCK[WordIndex(i)] == k && Sine(i) == t
    ensures Mix(i, w, x, y, z, BLOCK)
         == (x + RotateLeft((w + f + k + t) % 0x1_0000_0000, Rotation(i))) % 0x1_0000_0000
  {
    hide Auxiliary, RotateLeft, WordIndex, Rotation, Sine, Plus;
    Sum4(w, f, k, t);
    PlusIs(x, RotateLeft((w + f + k + t) % 0x1_0000_0000, Rotation(i)));
  }

  lemma {:induction false} PlusIs(x: Word, y: Word)
    ensures Plus(x, y) == (x + y) % 0x1_0000_0000
  {
  }

  // Operation i on its registers, given what the auxiliary function gives, the sum that is rotated by
  // s bits, its upper s bits and the others, and the register that is updated.
  lemma {:induction false} Step(i: nat, st: State, f: Word, k: Word, t: Word, s: nat, sum: Word, high: nat, low: nat,
                                v: Word)
    returns (next: State)
    requires i < 64 && Operations(INITIAL, BLOCK, i) == st
    requires BLOCK[WordIndex(i)] == k && Sine(i) == t && Rotation(i) == s
    requires
      var (w, x, y, z) := Roles(st, i);
      && Auxiliary(i / 16, x, y, z) == f
      && sum == (w + f + k + t) % 0x1_0000_0000
      && sum == high * Pow2(32 - s) + low && low < Pow2(32 - s)
      && v == (x + (low * Pow2(s) + high)) % 0x1_0000_0000
    ensures next == Updated(st, i, v) && Operations(INITIAL, BLOCK, i + 1) == next
  {
    hide Auxiliary, RotateLeft, WordIndex, Rotation, Sine, Mix, Pow2;
    var (w, x, y, z) := Roles(st, i);
    MixIs(i, w, x, y, z, f, k, t);
    RotatedIs(sum, s, high, low);
    next := Updated(st, i, v);
  }

  lemma {:induction false} RotatedIs(x: Word, s: nat, high: nat, low: nat)
    requires 0 < s < 32 && x == high * Pow2(32 - s) + low && low < Pow2(32 - s)
    ensures RotateLeft(x, s) == low * Pow2(s) + high
  {
    RotationParts(x, s, high, low);
    hide Pow2;
  }

  lemma {:induction false} Powers()
    ensures Pow2(4) == 0x10 && Pow2(5) == 0x20 && Pow2(6) == 0x40 && Pow2(7) == 0x80 && Pow2(9) == 0x200
    ensures Pow2(10) == 0x400 && Pow2(11) == 0x800 && Pow2(12) == 0x1000 && Pow2(14) == 0x4000 && Pow2(15) == 0x8000
    ensures Pow2(16) == 0x1_0000 && Pow2(17) == 0x2_0000 && Pow2(18) == 0x4_0000 && Pow2(20) == 0x10_0000
    ensures Pow2(21) == 0x20_0000 && Pow2(22) == 0x40_0000 && Pow2(23) == 0x80_0000 && Pow2(25) == 0x200_0000
    ensures Pow2(26) == 0x400_0000 && Pow2(27) == 0x800_0000 && Pow2(28) == 0x1000_0000
  {
    PowersMultiply(4, 10);
    PowersMultiply(14, 14);
    assert Pow2(4) == 0x10 && Pow2(10) == 0x400;
  }

  function Roles(st: State, i: nat): (Word, Word, Word, Word) {
    match i % 4
    case 0 => (st.a, st.b, st.c, st.d)
    case 1 => (st.d, st.a, st.b, st.c)
    case 2 => (st.c, st.d, st.a, st.b)
    case _ => (st.b, st.c, st.d, st.a)
  }

  function Updated(st: State, i: nat, v: Word): State {
    match i % 4
    case 0 => st.(a := v)
    case 1 => st.(d := v)
    case 2 => st.(c := v)
    case _ => st.(b := v)
  }

  lemma {:induction false} Values0()
    ensures F(0xefcdab89, 0x98badcfe, 0x10325476) == 0x98badcfe
    ensures F(0xa5202774, 0xefcdab89, 0x98badcfe) == 0xbd9afb8a
    ensures F(0xf59592dd, 0xa5202774, 0xefcdab89) == 0xaf482b54
    ensures F(0xe7f06b23, 0xf59592dd, 0xa5202774) == 0xe5900655
  {
  }

  lemma {:induction false} Table0()
    ensures Sine(0) == 0xd76aa478 && Rotation(0) == 7 && BLOCK[WordIndex(0)] == 0x80
    ensures Sine(1) == 0xe8c7b756 && Rotation(1) == 12 && BLOCK[WordIndex(1)] == 0x0
    ensures Sine(2) == 0x242070db && Rotation(2) == 17 && BLOCK[WordIndex(2)] == 0x0
    ensures Sine(3) == 0xc1bdceee && Rotation(3) == 22 && BLOCK[WordIndex(3)] == 0x0
  {
  }

  lemma {:induction false} To4() returns (st: State)
    ensures st == State(0xa5202774, 0x1b163203, 0xe7f06b23, 0xf59592dd) == Operations(INITIAL, BLOCK, 4)
  {
    hide F, G, H, I, RotateLeft, Pow2, Operations, Sine, Rotation, WordIndex;
    Powers();
    Values0();
    Table0();
    st := Start();
    st := Step(0, st, 0x98badcfe, 0x80, 0xd76aa478, 7, 0xd76aa4f7, 0x6b, 0x16aa4f7, 0xa5202774);
    st := Step(1, st, 0xbd9afb8a, 0x0, 0xe8c7b756, 12, 0xb6950756, 0xb69, 0x50756, 0xf59592dd);
    st := Step(2, st, 0xaf482b54, 0x0, 0x242070db, 17, 0x6c23792d, 0xd846, 0x792d, 0xe7f06b23);
    st := Step(3, st, 0xe5900655, 0x0, 0xc1bdceee, 22, 0x971b80cc, 0x25c6e0, 0xcc, 0x1b163203);
  }

  lemma {:induction false} Values4()
    ensures F(0x1b163203, 0xe7f06b23, 0xf59592dd) == 0xe791a2df
    ensures F(0x32033344, 0x1b163203, 0xe7f06b23) == 0xd7f27a23
    ensures F(0x2f35d494, 0x32033344, 0x1b163203) == 0x32033207
    ensures F(0xf5b158db, 0x2f35d494, 0x32033344) == 0x27337394
  {
  }

  lemma {:induction false} Table4()
    ensures Sine(4) == 0xf57c0faf && Rotation(4) == 7 && BLOCK[WordIndex(4)] == 0x0
    ensures Sine(5) == 0x4787c62a && Rotation(5) == 12 && BLOCK[WordIndex(5)] == 0x0
    ensures Sine(6) == 0xa8304613 && Rotation(6) == 17 && BLOCK[WordIndex(6)] == 0x0
    ensures Sine(7) == 0xfd469501 && Rotation(7) == 22 && BLOCK[WordIndex(7)] == 0x0
  {
  }

  lemma {:induction false} To8() returns (st: State)
    ensures st == State(0x32033344, 0x9bc13ce9, 0xf5b158db, 0x2f35d494) == Operations(INITIAL, BLOCK, 8)
  {
    hide F, G, H, I, RotateLeft, Pow2, Operations, Sine, Rotation, WordIndex;
    Powers();
    Values4();
    Table4();
    st := To4();
    st := Step(4, st, 0xe791a2df, 0x0, 0xf57c0faf, 7, 0x822dda02, 0x41, 0x2dda02, 0x32033344);
    st := Step(5, st, 0xd7f27a23, 0x0, 0x4787c62a, 12, 0x150fd32a, 0x150, 0xfd32a, 0x2f35d494);
    st := Step(6, st, 0x32033207, 0x0, 0xa8304613, 17, 0xc223e33d, 0x18447, 0x633d, 0xf5b158db);
    st := Step(7, st, 0x27337394, 0x0, 0xfd469501, 22, 0x3f903a98, 0xfe40e, 0x298, 0x9bc13ce9);
  }

  lemma {:induction false} Values8()
    ensures F(0x9bc13ce9, 0xf5b158db, 0x2f35d494) == 0xb5b5d8dd
    ensures F(0x3893b991, 0x9bc13ce9, 0xf5b158db) == 0xdda178cb
    ensures F(0xfce4a312, 0x3893b991, 0x9bc13ce9) == 0x3b81bdf9
    ensures F(0xe1ef0576, 0xfce4a312, 0x3893b991) == 0xf8f4b993
  {
  }

  lemma {:induction false} Table8()
    ensures Sine(8) == 0x698098d8 && Rotation(8) == 7 && BLOCK[WordIndex(8)] == 0x0
    ensures Sine(9) == 0x8b44f7af && Rotation(9) == 12 && BLOCK[WordIndex(9)] == 0x0
    ensures Sine(10) == 0xffff5bb1 && Rotation(10) == 17 && BLOCK[WordIndex(10)] == 0x0
    ensures Sine(11) == 0x895cd7be && Rotation(11) == 22 && BLOCK[WordIndex(11)] == 0x0
  {
  }

  lemma {:induction false} To12() returns (st: State)
    ensures st == State(0x3893b991, 0x70768a29, 0xe1ef0576, 0xfce4a312) == Operations(INITIAL, BLOCK, 12)
  {
    hide F, G, H, I, RotateLeft, Pow2, Operations, Sine, Rotation, WordIndex;
    Powers();
    Values8();
    Table8();
    st := To8();
    st := Step(8, st, 0xb5b5d8dd, 0x0, 0x698098d8, 7, 0x5139a4f9, 0x28, 0x139a4f9, 0x3893b991);
    st := Step(9, st, 0xdda178cb, 0x0, 0x8b44f7af, 12, 0x981c450e, 0x981, 0xc450e, 0xfce4a312);
    st := Step(10, st, 0x3b81bdf9, 0x0, 0xffff5bb1, 17, 0x31327285, 0x6264, 0x7285, 0xe1ef0576);
    st := Step(11, st, 0xf8f4b993, 0x0, 0x895cd7be, 22, 0x1e12ce3a, 0x784b3, 0x23a, 0x70768a29);
  }

  lemma {:induction false} Values12()
    ensures F(0x70768a29, 0xe1ef0576, 0xfce4a312) == 0xece62132
    ensures F(0xf56c7cf1, 0x70768a29, 0xe1ef0576) == 0x70e70927
    ensures F(0x374943a7, 0xf56c7cf1, 0x70768a29) == 0x757ec8a9
    ensures F(0x5aa53f75, 0x374943a7, 0xf56c7cf1) == 0xb74943a5
  {
  }

  lemma {:induction false} Table12()
    ensures Sine(12) == 0x6b901122 && Rotation(12) == 7 && BLOCK[WordIndex(12)] == 0x0
    ensures Sine(13) == 0xfd987193 && Rotation(13) == 12 && BLOCK[WordIndex(13)] == 0x0
    ensures Sine(14) == 0xa679438e && Rotation(14) == 17 && BLOCK[WordIndex(14)] == 0x0
    ensures Sine(15) == 0x49b40821 && Rotation(15) == 22 && BLOCK[WordIndex(15)] == 0x0
  {
  }

  lemma {:induction false} To16() returns (st: State)
    ensures st == State(0xf56c7cf1, 0xd6819c6a, 0x5aa53f75, 0x374943a7) == Operations(INITIAL, BLOCK, 16)
  {
    hide F, G, H, I, RotateLeft, Pow2, Operations, Sine, Rotation, WordIndex;
    Powers();
    Values12();
    Table12();
    st := To12();
    st := Step(12, st, 0xece62132, 0x0, 0x6b901122, 7, 0x9109ebe5, 0x48, 0x109ebe5, 0xf56c7cf1);
    st := Step(13, st, 0x70e70927, 0x0, 0xfd987193, 12, 0x6b641dcc, 0x6b6, 0x41dcc, 0x374943a7);
    st := Step(14, st, 0x757ec8a9, 0x0, 0xa679438e, 17, 0xfde711ad, 0x1fbce, 0x11ad, 0x5aa53f75);
    st := Step(15, st, 0xb74943a5, 0x0, 0x49b40821, 22, 0x7173d5ef, 0x1c5cf5, 0x1ef, 0xd6819c6a);
  }

  lemma {:induction false} Values16()
    ensures G(0xd6819c6a, 0x5aa53f75, 0x374943a7) == 0x5ea53c72
    ensures G(0x1c7d7513, 0xd6819c6a, 0x5aa53f75) == 0x9c25b51b
    ensures G(0x7bd57a3a, 0x1c7d7513, 0xd6819c6a) == 0x5afd793b
    ensures G(0xc095f13a, 0x7bd57a3a, 0x1c7d7513) == 0x63957b3a
  {
  }

  lemma {:induction false} Table16()
    ensures Sine(16) == 0xf61e2562 && Rotation(16) == 5 && BLOCK[WordIndex(16)] == 0x0
    ensures Sine(17) == 0xc040b340 && Rotation(17) == 9 && BLOCK[WordIndex(17)] == 0x0
    ensures Sine(18) == 0x265e5a51 && Rotation(18) == 14 && BLOCK[WordIndex(18)] == 0x0
    ensures Sine(19) == 0xe9b6c7aa && Rotation(19) == 20 && BLOCK[WordIndex(19)] == 0x80
  {
  }

  lemma {:induction false} To20() returns (st: State)
    ensures st == State(0x1c7d7513, 0xbd782e17, 0xc095f13a, 0x7bd57a3a) == Operations(INITIAL, BLOCK, 20)
  {
    hide F, G, H, I, RotateLeft, Pow2, Operations, Sine, Rotation, WordIndex;
    Powers();
    Values16();
    Table16();
    st := To16();
    st := Step(16, st, 0x5ea53c72, 0x0, 0xf61e2562, 5, 0x4a2fdec5, 0x9, 0x22fdec5, 0x1c7d7513);
    st := Step(17, st, 0x9c25b51b, 0x0, 0xc040b340, 9, 0x93afac02, 0x127, 0x2fac02, 0x7bd57a3a);
    st := Step(18, st, 0x5afd793b, 0x0, 0x265e5a51, 14, 0xdc011301, 0x3700, 0x11301, 0xc095f13a);
    st := Step(19, st, 0x63957b3a, 0x80, 0xe9b6c7aa, 20, 0x23cddfce, 0x23cdd, 0xfce, 0xbd782e17);
  }

  lemma {:induction false} Values20()
    ensures G(0xbd782e17, 0xc095f13a, 0x7bd57a3a) == 0xb950ab12
    ensures G(0x3d1e3e6c, 0xbd782e17, 0xc095f13a) == 0x3d7c3e2d
    ensures G(0x68b7b3e3, 0x3d1e3e6c, 0xbd782e17) == 0x2836326b
    ensures G(0xeb41643e, 0x68b7b3e3, 0x3d1e3e6c) == 0x69a1a5af
  {
  }

  lemma {:induction false} Table20()
    ensures Sine(20) == 0xd62f105d && Rotation(20) == 5 && BLOCK[WordIndex(20)] == 0x0
    ensures Sine(21) == 0x02441453 && Rotation(21) == 9 && BLOCK[WordIndex(21)] == 0x0
    ensures Sine(22) == 0xd8a1e681 && Rotation(22) == 14 && BLOCK[WordIndex(22)] == 0x0
    ensures Sine(23) == 0xe7d3fbc8 && Rotation(23) == 20 && BLOCK[WordIndex(23)] == 0x0
  {
  }

  lemma {:induction false} To24() returns (st: State)
    ensures st == State(0x3d1e3e6c, 0xe422531a, 0xeb41643e, 0x68b7b3e3) == Operations(INITIAL, BLOCK, 24)
  {
    hide F, G, H, I, RotateLeft, Pow2, Operations, Sine, Rotation, WordIndex;
    Powers();
    Values20();
    Table20();
    st := To20();
    st := Step(20, st, 0xb950ab12, 0x0, 0xd62f105d, 5, 0xabfd3082, 0x15, 0x3fd3082, 0x3d1e3e6c);
    st := Step(21, st, 0x3d7c3e2d, 0x0, 0x02441453, 9, 0xbb95ccba, 0x177, 0x15ccba, 0x68b7b3e3);
    st := Step(22, st, 0x2836326b, 0x0, 0xd8a1e681, 14, 0xc16e0a26, 0x305b, 0x20a26, 0xeb41643e);
    st := Step(23, st, 0x69a1a5af, 0x0, 0xe7d3fbc8, 20, 0x0eedcf8e, 0xeedc, 0xf8e, 0xe422531a);
  }

  lemma {:induction false} Values24()
    ensures G(0xe422531a, 0xeb41643e, 0x68b7b3e3) == 0xe362571e
    ensures G(0x306ec122, 0xe422531a, 0xeb41643e) == 0x24625322
    ensures G(0xd28c77c2, 0x306ec122, 0xe422531a) == 0xd04cd322
    ensures G(0xa3c663da, 0xd28c77c2, 0x306ec122) == 0xe2c677c2
  {
  }

  lemma {:induction false} Table24()
    ensures Sine(24) == 0x21e1cde6 && Rotation(24) == 5 && BLOCK[WordIndex(24)] == 0x0
    ensures Sine(25) == 0xc33707d6 && Rotation(25) == 9 && BLOCK[WordIndex(25)] == 0x0
    ensures Sine(26) == 0xf4d50d87 && Rotation(26) == 14 && BLOCK[WordIndex(26)] == 0x0
    ensures Sine(27) == 0x455a14ed && Rotation(27) == 20 && BLOCK[WordIndex(27)] == 0x0
  {
  }

  lemma {:induction false} To28() returns (st: State)
    ensures st == State(0x306ec122, 0xa0572807, 0xa3c663da, 0xd28c77c2) == Operations(INITIAL, BLOCK, 28)
  {
    hide F, G, H, I, RotateLeft, Pow2, Operations, Sine, Rotation, WordIndex;
    Powers();
    Values24();
    Table24();
    st := To24();
    st := Step(24, st, 0xe362571e, 0x0, 0x21e1cde6, 5, 0x42626370, 0x8, 0x2626370, 0x306ec122);
    st := Step(25, st, 0x24625322, 0x0, 0xc33707d6, 9, 0x50510edb, 0xa0, 0x510edb, 0xd28c77c2);
    st := Step(26, st, 0xd04cd322, 0x0, 0xf4d50d87, 14, 0xb06344e7, 0x2c18, 0x344e7, 0xa3c663da);
    st := Step(27, st, 0xe2c677c2, 0x0, 0x455a14ed, 20, 0x0c42dfc9, 0xc42d, 0xfc9, 0xa0572807);
  }

  lemma {:induction false} Values28()
    ensures G(0xa0572807, 0xa3c663da, 0xd28c77c2) == 0xa146201a
    ensures G(0x13707036, 0xa0572807, 0xa3c663da) == 0x03516817
    ensures G(0xae7813db, 0x13707036, 0xa0572807) == 0xb3705033
    ensures G(0x1c31c384, 0xae7813db, 0x13707036) == 0xbc3843cd
  {
  }

  lemma {:induction false} Table28()
    ensures Sine(28) == 0xa9e3e905 && Rotation(28) == 5 && BLOCK[WordIndex(28)] == 0x0
    ensures Sine(29) == 0xfcefa3f8 && Rotation(29) == 9 && BLOCK[WordIndex(29)] == 0x0
    ensures Sine(30) == 0x676f02d9 && Rotation(30) == 14 && BLOCK[WordIndex(30)] == 0x0
    ensures Sine(31) == 0x8d2a4c8a && Rotation(31) == 20 && BLOCK[WordIndex(31)] == 0x0
  {
  }

  lemma {:induction false} To32() returns (st: State)
    ensures st == State(0x13707036, 0xa2205f1f, 0x1c31c384, 0xae7813db) == Operations(INITIAL, BLOCK, 32)
  {
    hide F, G, H, I, RotateLeft, Pow2, Operations, Sine, Rotation, WordIndex;
    Powers();
    Values28();
    Table28();
    st := To28();
    st := Step(28, st, 0xa146201a, 0x0, 0xa9e3e905, 5, 0x7b98ca41, 0xf, 0x398ca41, 0x13707036);
    st := Step(29, st, 0x03516817, 0x0, 0xfcefa3f8, 9, 0xd2cd83d1, 0x1a5, 0x4d83d1, 0xae7813db);
    st := Step(30, st, 0xb3705033, 0x0, 0x676f02d9, 14, 0xbea5b6e6, 0x2fa9, 0x1b6e6, 0x1c31c384);
    st := Step(31, st, 0xbc3843cd, 0x0, 0x8d2a4c8a, 20, 0xe9b9b85e, 0xe9b9b, 0x85e, 0xa2205f1f);
  }

  lemma {:induction false} Values32()
    ensures H(0xa2205f1f, 0x1c31c384, 0xae7813db) == 0x10698f40
    ensures H(0xdf63eaa1, 0xa2205f1f, 0x1c31c384) == 0x6172763a
    ensures H(0xc3689f5b, 0xdf63eaa1, 0xa2205f1f) == 0xbe2b2ae5
    ensures H(0x12f3e755, 0xc3689f5b, 0xdf63eaa1) == 0x0ef892af
  {
  }

  lemma {:induction false} Table32()
    ensures Sine(32) == 0xfffa3942 && Rotation(32) == 4 && BLOCK[WordIndex(32)] == 0x0
    ensures Sine(33) == 0x8771f681 && Rotation(33) == 11 && BLOCK[WordIndex(33)] == 0x0
    ensures Sine(34) == 0x6d9d6122 && Rotation(34) == 16 && BLOCK[WordIndex(34)] == 0x0
    ensures Sine(35) == 0xfde5380c && Rotation(35) == 23 && BLOCK[WordIndex(35)] == 0x0
  {
  }

  lemma {:induction false} To36() returns (st: State)
    ensures st == State(0xdf63eaa1, 0x004b6669, 0x12f3e755, 0xc3689f5b) == Operations(INITIAL, BLOCK, 36)
  {
    hide F, G, H, I, RotateLeft, Pow2, Operations, Sine, Rotation, WordIndex;
    Powers();
    Values32();
    Table32();
    st := To32();
    st := Step(32, st, 0x10698f40, 0x0, 0xfffa3942, 4, 0x23d438b8, 0x2, 0x3d438b8, 0xdf63eaa1);
    st := Step(33, st, 0x6172763a, 0x0, 0x8771f681, 11, 0x975c8096, 0x4ba, 0x1c8096, 0xc3689f5b);
    st := Step(34, st, 0xbe2b2ae5, 0x0, 0x6d9d6122, 16, 0x47fa4f8b, 0x47fa, 0x4f8b, 0x12f3e755);
    st := Step(35, st, 0x0ef892af, 0x0, 0xfde5380c, 23, 0xaefe29da, 0x577f14, 0x1da, 0x004b6669);
  }

  lemma {:induction false} Values36()
    ensures H(0x004b6669, 0x12f3e755, 0xc3689f5b) == 0xd1d01e67
    ensures H(0x5f7a9b2e, 0x004b6669, 0x12f3e755) == 0x4dc21a12
    ensures H(0xabc34e16, 0x5f7a9b2e, 0x004b6669) == 0xf4f2b351
    ensures H(0x91ca4cb7, 0xabc34e16, 0x5f7a9b2e) == 0x6573998f
  {
  }

  lemma {:induction false} Table36()
    ensures Sine(36) == 0xa4beea44 && Rotation(36) == 4 && BLOCK[WordIndex(36)] == 0x0
    ensures Sine(37) == 0x4bdecfa9 && Rotation(37) == 11 && BLOCK[WordIndex(37)] == 0x0
    ensures Sine(38) == 0xf6bb4b60 && Rotation(38) == 16 && BLOCK[WordIndex(38)] == 0x0
    ensures Sine(39) == 0xbebfbc70 && Rotation(39) == 23 && BLOCK[WordIndex(39)] == 0x0
  {
  }

  lemma {:induction false} To40() returns (st: State)
    ensures st == State(0x5f7a9b2e, 0xc5dc8c15, 0x91ca4cb7, 0xabc34e16) == Operations(INITIAL, BLOCK, 40)
  {
    hide F, G, H, I, RotateLeft, Pow2, Operations, Sine, Rotation, WordIndex;
    Powers();
    Values36();
    Table36();
    st := To36();
    st := Step(36, st, 0xd1d01e67, 0x0, 0xa4beea44, 4, 0x55f2f34c, 0x5, 0x5f2f34c, 0x5f7a9b2e);
    st := Step(37, st, 0x4dc21a12, 0x0, 0x4bdecfa9, 11, 0x5d098916, 0x2e8, 0x98916, 0xabc34e16);
    st := Step(38, st, 0xf4f2b351, 0x0, 0xf6bb4b60, 16, 0xfea1e606, 0xfea1, 0xe606, 0x91ca4cb7);
    st := Step(39, st, 0x6573998f, 0x0, 0xbebfbc70, 23, 0x247ebc68, 0x123f5e, 0x68, 0xc5dc8c15);
  }

  lemma {:induction false} Values40()
    ensures H(0xc5dc8c15, 0x91ca4cb7, 0xabc34e16) == 0xffd58eb4
    ensures H(0x4497169d, 0xc5dc8c15, 0x91ca4cb7) == 0x1081d63f
    ensures H(0x76fd93d4, 0x4497169d, 0xc5dc8c15) == 0xf7b6095c
    ensures H(0xfd95f243, 0x76fd93d4, 0x4497169d) == 0xcfff770a
  {
  }

  lemma {:induction false} Table40()
    ensures Sine(40) == 0x289b7ec6 && Rotation(40) == 4 && BLOCK[WordIndex(40)] == 0x0
    ensures Sine(41) == 0xeaa127fa && Rotation(41) == 11 && BLOCK[WordIndex(41)] == 0x80
    ensures Sine(42) == 0xd4ef3085 && Rotation(42) == 16 && BLOCK[WordIndex(42)] == 0x0
    ensures Sine(43) == 0x04881d05 && Rotation(43) == 23 && BLOCK[WordIndex(43)] == 0x0
  {
  }

  lemma {:induction false} To44() returns (st: State)
    ensures st == State(0x4497169d, 0x0fe32453, 0xfd95f243, 0x76fd93d4) == Operations(INITIAL, BLOCK, 44)
  {
    hide F, G, H, I, RotateLeft, Pow2, Operations, Sine, Rotation, WordIndex;
    Powers();
    Values40();
    Table40();
    st := To40();
    st := Step(40, st, 0xffd58eb4, 0x0, 0x289b7ec6, 4, 0x87eba8a8, 0x8, 0x7eba8a8, 0x4497169d);
    st := Step(41, st, 0x1081d63f, 0x80, 0xeaa127fa, 11, 0xa6e64ccf, 0x537, 0x64ccf, 0x76fd93d4);
    st := Step(42, st, 0xf7b6095c, 0x0, 0xd4ef3085, 16, 0x5e6f8698, 0x5e6f, 0x8698, 0xfd95f243);
    st := Step(43, st, 0xcfff770a, 0x0, 0x04881d05, 23, 0x9a642024, 0x4d3210, 0x24, 0x0fe32453);
  }

  lemma {:induction false} Values44()
    ensures H(0x0fe32453, 0xfd95f243, 0x76fd93d4) == 0x848b45c4
    ensures H(0x3f55edfd, 0x0fe32453, 0xfd95f243) == 0xcd233bed
    ensures H(0x22a31f54, 0x3f55edfd, 0x0fe32453) == 0x1215d6fa
    ensures H(0x68d84ea2, 0x22a31f54, 0x3f55edfd) == 0x752ebc0b
  {
  }

  lemma {:induction false} Table44()
    ensures Sine(44) == 0xd9d4d039 && Rotation(44) == 4 && BLOCK[WordIndex(44)] == 0x0
    ensures Sine(45) == 0xe6db99e5 && Rotation(45) == 11 && BLOCK[WordIndex(45)] == 0x0
    ensures Sine(46) == 0x1fa27cf8 && Rotation(46) == 16 && BLOCK[WordIndex(46)] == 0x0
    ensures Sine(47) == 0xc4ac5665 && Rotation(47) == 23 && BLOCK[WordIndex(47)] == 0x0
  {
  }

  lemma {:induction false} To48() returns (st: State)
    ensures st == State(0x3f55edfd, 0xca7d2dbd, 0x68d84ea2, 0x22a31f54) == Operations(INITIAL, BLOCK, 48)
  {
    hide F, G, H, I, RotateLeft, Pow2, Operations, Sine, Rotation, WordIndex;
    Powers();
    Values44();
    Table44();
    st := To44();
    st := Step(44, st, 0x848b45c4, 0x0, 0xd9d4d039, 4, 0xa2f72c9a, 0xa, 0x2f72c9a, 0x3f55edfd);
    st := Step(45, st, 0xcd233bed, 0x0, 0xe6db99e5, 11, 0x2afc69a6, 0x157, 0x1c69a6, 0x22a31f54);
    st := Step(46, st, 0x1215d6fa, 0x0, 0x1fa27cf8, 16, 0x2f4e4635, 0x2f4e, 0x4635, 0x68d84ea2);
    st := Step(47, st, 0x752ebc0b, 0x0, 0xc4ac5665, 23, 0x49be36c3, 0x24df1b, 0xc3, 0xca7d2dbd);
  }

  lemma {:induction false} Values48()
    ensures I(0xca7d2dbd, 0x68d84ea2, 0x22a31f54) == 0xb7a5a31d
    ensures I(0x93aa2577, 0xca7d2dbd, 0x68d84ea2) == 0x5dd298c2
    ensures I(0x1688dc85, 0x93aa2577, 0xca7d2dbd) == 0xa420fbb0
    ensures I(0xcd85b8cb, 0x1688dc85, 0x93aa2577) == 0xfb5d264e
  {
  }

  lemma {:induction false} Table48()
    ensures Sine(48) == 0xf4292244 && Rotation(48) == 6 && BLOCK[WordIndex(48)] == 0x80
    ensures Sine(49) == 0x432aff97 && Rotation(49) == 10 && BLOCK[WordIndex(49)] == 0x0
    ensures Sine(50) == 0xab9423a7 && Rotation(50) == 15 && BLOCK[WordIndex(50)] == 0x0
    ensures Sine(51) == 0xfc93a039 && Rotation(51) == 21 && BLOCK[WordIndex(51)] == 0x0
  {
  }

  lemma {:induction false} To52() returns (st: State)
    ensures st == State(0x93aa2577, 0x561e0689, 0xcd85b8cb, 0x1688dc85) == Operations(INITIAL, BLOCK, 52)
  {
    hide F, G, H, I, RotateLeft, Pow2, Operations, Sine, Rotation, WordIndex;
    Powers();
    Values48();
    Table48();
    st := To48();
    st := Step(48, st, 0xb7a5a31d, 0x80, 0xf4292244, 6, 0xeb24b3de, 0x3a, 0x324b3de, 0x93aa2577);
    st := Step(49, st, 0x5dd298c2, 0x0, 0x432aff97, 10, 0xc3a0b7ad, 0x30e, 0x20b7ad, 0x1688dc85);
    st := Step(50, st, 0xa420fbb0, 0x0, 0xab9423a7, 15, 0xb88d6df9, 0x5c46, 0x16df9, 0xcd85b8cb);
    st := Step(51, st, 0xfb5d264e, 0x0, 0xfc93a039, 21, 0xc26df444, 0x184dbe, 0x444, 0x561e0689);
  }

  lemma {:induction false} Values52()
    ensures I(0x561e0689, 0xcd85b8cb, 0x1688dc85) == 0x32fa9f30
    ensures I(0x5625a114, 0x561e0689, 0xcd85b8cb) == 0x2061e1bd
    ensures I(0x3450f42b, 0x5625a114, 0x561e0689) == 0xebd45c6b
    ensures I(0x392ad0d0, 0x3450f42b, 0x5625a114) == 0x8daa2ad0
  {
  }

  lemma {:induction false} Table52()
    ensures Sine(52) == 0x655b59c3 && Rotation(52) == 6 && BLOCK[WordIndex(52)] == 0x0
    ensures Sine(53) == 0x8f0ccc92 && Rotation(53) == 10 && BLOCK[WordIndex(53)] == 0x0
    ensures Sine(54) == 0xffeff47d && Rotation(54) == 15 && BLOCK[WordIndex(54)] == 0x0
    ensures Sine(55) == 0x85845dd1 && Rotation(55) == 21 && BLOCK[WordIndex(55)] == 0x0
  {
  }

  lemma {:induction false} To56() returns (st: State)
    ensures st == State(0x5625a114, 0x1e77fa61, 0x392ad0d0, 0x3450f42b) == Operations(INITIAL, BLOCK, 56)
  {
    hide F, G, H, I, RotateLeft, Pow2, Operations, Sine, Rotation, WordIndex;
    Powers();
    Values52();
    Table52();
    st := To52();
    st := Step(52, st, 0x32fa9f30, 0x0, 0x655b59c3, 6, 0x2c001e6a, 0xb, 0x1e6a, 0x5625a114);
    st := Step(53, st, 0x2061e1bd, 0x0, 0x8f0ccc92, 10, 0xc5f78ad4, 0x317, 0x378ad4, 0x3450f42b);
    st := Step(54, st, 0xebd45c6b, 0x0, 0xffeff47d, 15, 0xb94a09b3, 0x5ca5, 0x9b3, 0x392ad0d0);
    st := Step(55, st, 0x8daa2ad0, 0x0, 0x85845dd1, 21, 0x694c8f2a, 0xd2991, 0x72a, 0x1e77fa61);
  }

  lemma {:induction false} Values56()
    ensures I(0x1e77fa61, 0x392ad0d0, 0x3450f42b) == 0xe6d52b25
    ensures I(0x474a9c8c, 0x1e77fa61, 0x392ad0d0) == 0xd9a845ce
    ensures I(0xdfce00bc, 0x474a9c8c, 0x1e77fa61) == 0xb8849932
    ensures I(0x36594b14, 0xdfce00bc, 0x474a9c8c) == 0x61336bcb
  {
  }

  lemma {:induction false} Table56()
    ensures Sine(56) == 0x6fa87e4f && Rotation(56) == 6 && BLOCK[WordIndex(56)] == 0x0
    ensures Sine(57) == 0xfe2ce6e0 && Rotation(57) == 10 && BLOCK[WordIndex(57)] == 0x0
    ensures Sine(58) == 0xa3014314 && Rotation(58) == 15 && BLOCK[WordIndex(58)] == 0x0
    ensures Sine(59) == 0x4e0811a1 && Rotation(59) == 21 && BLOCK[WordIndex(59)] == 0x0
  {
  }

  lemma {:induction false} To60() returns (st: State)
    ensures st == State(0x474a9c8c, 0x30130182, 0x36594b14, 0xdfce00bc) == Operations(INITIAL, BLOCK, 60)
  {
    hide F, G, H, I, RotateLeft, Pow2, Operations, Sine, Rotation, WordIndex;
    Powers();
    Values56();
    Table56();
    st := To56();
    st := Step(56, st, 0xe6d52b25, 0x0, 0x6fa87e4f, 6, 0xaca34a88, 0x2b, 0xa34a88, 0x474a9c8c);
    st := Step(57, st, 0xd9a845ce, 0x0, 0xfe2ce6e0, 10, 0x0c2620d9, 0x30, 0x2620d9, 0xdfce00bc);
    st := Step(58, st, 0xb8849932, 0x0, 0xa3014314, 15, 0x94b0ad16, 0x4a58, 0xad16, 0x36594b14);
    st := Step(59, st, 0x61336bcb, 0x0, 0x4e0811a1, 21, 0xcdb377cd, 0x19b66e, 0x7cd, 0x30130182);
  }

  lemma {:induction false} Values60()
    ensures I(0x30130182, 0x36594b14, 0xdfce00bc) == 0x066ab4d7
    ensures I(0x7246fad3, 0x30130182, 0x36594b14) == 0xcbf5ff79
    ensures I(0x6e10a476, 0x7246fad3, 0x30130182) == 0x9dba04ac
    ensures I(0xff4ea3eb, 0x6e10a476, 0x7246fad3) == 0x91ef0399
  {
  }

  lemma {:induction false} Table60()
    ensures Sine(60) == 0xf7537e82 && Rotation(60) == 6 && BLOCK[WordIndex(60)] == 0x0
    ensures Sine(61) == 0xbd3af235 && Rotation(61) == 10 && BLOCK[WordIndex(61)] == 0x0
    ensures Sine(62) == 0x2ad7d2bb && Rotation(62) == 15 && BLOCK[WordIndex(62)] == 0x0
    ensures Sine(63) == 0xeb86d391 && Rotation(63) == 21 && BLOCK[WordIndex(63)] == 0x0
  {
  }

  lemma {:induction false} To64() returns (st: State)
    ensures st == State(0x7246fad3, 0x14e45506, 0xff4ea3eb, 0x6e10a476) == Operations(INITIAL, BLOCK, 64)
  {
    hide F, G, H, I, RotateLeft, Pow2, Operations, Sine, Rotation, WordIndex;
    Powers();
    Values60();
    Table60();
    st := To60();
    st := Step(60, st, 0x066ab4d7, 0x0, 0xf7537e82, 6, 0x4508cfe5, 0x11, 0x108cfe5, 0x7246fad3);
    st := Step(61, st, 0xcbf5ff79, 0x0, 0xbd3af235, 10, 0x68fef26a, 0x1a3, 0x3ef26a, 0x6e10a476);
    st := Step(62, st, 0x9dba04ac, 0x0, 0x2ad7d2bb, 15, 0xfeeb227b, 0x7f75, 0x1227b, 0xff4ea3eb);
    st := Step(63, st, 0x91ef0399, 0x0, 0xeb86d391, 21, 0xad88d8ac, 0x15b11b, 0xac, 0x14e45506);
  }

  // MD5 ("") = d41d8cd98f00b204e9800998ecf8427e
  lemma {:induction false} EmptyMessage()
    ensures Digest([]) == [0xd4, 0x1d, 0x8c, 0xd9, 0x8f, 0x00, 0xb2, 0x04, 0xe9, 0x80, 0x09, 0x98, 0xec, 0xf8, 0x42,
                           0x7e]
  {
    hide Process, Padded, Compress, WordBytes;
    EmptyProcess();
    EmptyState();
    EmptyDigits();
  }

  lemma {:induction false} EmptyDigits()
    ensures WordBytes(0xd98c1dd4) == [0xd4, 0x1d, 0x8c, 0xd9] && WordBytes(0x04b2008f) == [0x8f, 0x00, 0xb2, 0x04]
    ensures WordBytes(0x980980e9) == [0xe9, 0x80, 0x09, 0x98] && WordBytes(0x7e42f8ec) == [0xec, 0xf8, 0x42, 0x7e]
  {
  }

  lemma {:induction false} EmptyState()
    ensures Compress(INITIAL, BLOCK) == State(0xd98c1dd4, 0x04b2008f, 0x980980e9, 0x7e42f8ec)
  {
    var st := To64();
    hide Operations;
  }

  lemma {:induction false} EmptyProcess()
    ensures |Padded([])| == 64 && Process(Padded([]), 1) == Compress(INITIAL, BLOCK)
  {
    hide Compress, Padded;
    EmptyBlock();
    assert Padded([])[0..64] == Padded([]);
  }

  lemma {:induction false} EmptyBlock()
    ensures |Padded([])| == 64 && BlockWords(Padded([])) == BLOCK
  {
    ZeroBytes();
    hide WordBytes, LengthLow, LengthHigh;
    var p := Padded([]);
    assert p == [] + PadBytes(0) + [0, 0, 0, 0] + [0, 0, 0, 0];
    assert p[0] == 0x80 && forall i :: 1 <= i < 64 ==> p[i] == 0;
    forall i | 0 <= i < 16
      ensures BlockWords(p)[i] == BLOCK[i]
    {
    }
  }

  lemma {:induction false} ZeroBytes()
    ensures WordBytes(LengthLow(0)) == [0, 0, 0, 0] && WordBytes(LengthHigh(0)) == [0, 0, 0, 0]
  {
  }
}
