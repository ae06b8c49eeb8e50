/** Sums over the lanes of a register, and lanes that hold exact values modulo their width. */
module Lanes {
  import opened Arithmetic
  import opened MachineInts
  import opened Simd

  function Total(lanes: seq<nat>): nat {
    if lanes == [] then 0 else lanes[0] + Total(lanes[1..])
  }

  ghost predicate AtMost(lanes: seq<nat>, most: nat) {
    forall i :: 0 <= i < |lanes| ==> lanes[i] <= most
  }

  ghost function Plus(a: seq<nat>, b: seq<nat>): (c: seq<nat>)
    requires |a| == |b|
    ensures |c| == |a|
  {
    seq(|a|, i requires 0 <= i < |a| => a[i] + b[i])
  }

  lemma {:induction false} TotalPlus(a: seq<nat>, b: seq<nat>)
    requires |a| == |b|
    ensures Total(Plus(a, b)) == Total(a) + Total(b)
    decreases |a|
  {
    if a != [] {
      TotalPlus(a[1..], b[1..]);
      assert Plus(a, b)[1..] == Plus(a[1..], b[1..]);
    }
  }

  lemma {:induction false} TotalConcat(a: seq<nat>, b: seq<nat>)
    ensures Total(a + b) == Total(a) + Total(b)
    decreases |a|
  {
    if a == [] {
      assert a + b == b;
    } else {
      TotalConcat(a[1..], b);
      assert (a + b)[1..] == a[1..] + b;
    }
  }

  // Lanes hold exact values reduced modulo m.
  ghost predicate Tracks(lanes: seq<nat>, exact: seq<nat>, m: nat) {
    m > 0 && |lanes| == |exact| && forall i :: 0 <= i < |lanes| ==> lanes[i] == exact[i] % m
  }

  lemma {:induction false} TracksTotal(lanes: seq<nat>, exact: seq<nat>, m: nat)
    requires Tracks(lanes, exact, m)
    ensures Total(lanes) % m == Total(exact) % m
    decreases |lanes|
  {
    if lanes != [] {
      TracksTotal(lanes[1..], exact[1..], m);
      SumModulo(Total(lanes[1..]), Total(exact[1..]), lanes[0], m);
      Reduced(exact[0], m);
      SumModulo(lanes[0], exact[0], Total(exact[1..]), m);
    }
  }

  lemma {:induction false} Reduced(v: int, m: nat)
    requires m > 0
    ensures v % m % m == v % m
  {
    Quotient(v % m, m, 0, v % m);
  }

  lemma {:induction false} TotalOfFour(a: seq<nat>)
    requires |a| == 4
    ensures Total(a) == a[0] + a[1] + a[2] + a[3]
  {
    assert Total(a[1..]) == a[1] + Total(a[1..][1..]);
    assert Total(a[1..][1..]) == a[2] + Total(a[1..][1..][1..]);
    assert Total(a[1..][1..][1..]) == a[3];
  }

  function Zeros(n: nat): (z: seq<u32>)
    ensures |z| == n
  {
    Set1(0, n)
  }

  lemma {:induction false} ZeroTotal(n: nat)
    ensures Total(Zeros(n)) == 0
    decreases n
  {
    if n > 0 {
      assert Zeros(n)[1..] == Zeros(n - 1);
      ZeroTotal(n - 1);
    }
  }

  // ----- one register folded onto its low lane -----

  // srli_si128 by whole lanes: zeros move in at the top.
  function SrliDwords(r: seq<u32>, n: nat): (s: seq<u32>)
    requires n <= |r|
    ensures |s| == |r|
  {
    r[n..] + Zeros(n)
  }

  // The upper half onto the lower, then the second lane onto the first: dc_sum_4x32bit and hadd32_sse2_intrin.
  function Folded4(r: seq<u32>): u32
    requires |r| == 4
  {
    var halves := AddEpi32(r, SrliDwords(r, 2));
    AddEpi32(halves, SrliDwords(halves, 1))[0]
  }

  lemma {:induction false} DwordsWrapOnce(a: u32, b: u32, c: u32, d: u32)
    ensures AddDword(AddDword(a, c), AddDword(b, d)) == W32(a + b + c + d)
  {
  }

  // However the lanes wrap, the low lane is their sum modulo 2^32.
  lemma {:induction false} FoldedTotal(r: seq<u32>)
    requires |r| == 4
    ensures Folded4(r) == W32(Total(r))
  {
    hide Total, AddDword, W32;
    TotalOfFour(r);
    DwordsWrapOnce(r[0], r[1], r[2], r[3]);
  }
}
