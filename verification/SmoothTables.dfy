/** The weights of the smooth predictors: the table of the scalar code, and the tables the vector code loads. */
module SmoothTables {
  import opened MachineInts

  // Block sizes with a table.
  predicate Size(bs: nat) { bs == 4 || bs == 8 || bs == 16 || bs == 32 || bs == 64 }

  // ----- sm_weight_arrays, four entries a time -----

  function Weights4(g: nat): (w: seq<u16>)
    ensures |w| == 4
  {
    [255, 149, 85, 64]
  }

  function Weights8(g: nat): (w: seq<u16>)
    ensures |w| == 4
  {
    if g == 0 then [255, 197, 146, 105]
    else [73, 50, 37, 32]
  }

  function Weights16(g: nat): (w: seq<u16>)
    ensures |w| == 4
  {
    if g == 0 then [255, 225, 196, 170]
    else if g == 1 then [145, 123, 102, 84]
    else if g == 2 then [68, 54, 43, 33]
    else [26, 20, 17, 16]
  }

  function Weights32(g: nat): (w: seq<u16>)
    ensures |w| == 4
  {
    if g == 0 then [255, 240, 225, 210]
    else if g == 1 then [196, 182, 169, 157]
    else if g == 2 then [145, 133, 122, 111]
    else if g == 3 then [101, 92, 83, 74]
    else if g == 4 then [66, 59, 52, 45]
    else if g == 5 then [39, 34, 29, 25]
    else if g == 6 then [21, 17, 14, 12]
    else [10, 9, 8, 8]
  }

  function Weights64(g: nat): (w: seq<u16>)
    ensures |w| == 4
  {
    if g == 0 then [255, 248, 240, 233]
    else if g == 1 then [225, 218, 210, 203]
    else if g == 2 then [196, 189, 182, 176]
    else if g == 3 then [169, 163, 156, 150]
    else if g == 4 then [144, 138, 133, 127]
    else if g == 5 then [121, 116, 111, 106]
    else if g == 6 then [101, 96, 91, 86]
    else if g == 7 then [82, 77, 73, 69]
    else if g == 8 then [65, 61, 57, 54]
    else if g == 9 then [50, 47, 44, 41]
    else if g == 10 then [38, 35, 32, 29]
    else if g == 11 then [27, 25, 22, 20]
    else if g == 12 then [18, 16, 15, 13]
    else if g == 13 then [12, 10, 9, 8]
    else if g == 14 then [7, 6, 6, 5]
    else [5, 4, 4, 4]
  }

  // Entries 4 * g to 4 * g + 3 of the weights of a size.
  function Weights(bs: nat, g: nat): (w: seq<u16>)
    requires Size(bs) && g < bs / 4
    ensures |w| == 4
  {
    if bs == 4 then Weights4(g) else if bs == 8 then Weights8(g) else if bs == 16 then Weights16(g)
    else if bs == 32 then Weights32(g) else Weights64(g)
  }

  // ----- sm_weights_d_4 to sm_weights_d_64: lines of eight, each there twice -----

  function Doubled4(g: nat): (w: seq<u16>)
    ensures |w| == 8
  {
    [255, 1, 149, 107, 85, 171, 64, 192]
  }

  function Doubled8(g: nat): (w: seq<u16>)
    ensures |w| == 8
  {
    if g == 0 then [255, 1, 197, 59, 146, 110, 105, 151]
    else [73, 183, 50, 206, 37, 219, 32, 224]
  }

  function Doubled16(g: nat): (w: seq<u16>)
    ensures |w| == 8
  {
    if g == 0 then [255, 1, 225, 31, 196, 60, 170, 86]
    else if g == 1 then [145, 111, 123, 133, 102, 154, 84, 172]
    else if g == 2 then [68, 188, 54, 202, 43, 213, 33, 223]
    else [26, 230, 20, 236, 17, 239, 16, 240]
  }

  function Doubled32(g: nat): (w: seq<u16>)
    ensures |w| == 8
  {
    if g == 0 then [255, 1, 240, 16, 225, 31, 210, 46]
    else if g == 1 then [196, 60, 182, 74, 169, 87, 157, 99]
    else if g == 2 then [145, 111, 133, 123, 122, 134, 111, 145]
    else if g == 3 then [101, 155, 92, 164, 83, 173, 74, 182]
    else if g == 4 then [66, 190, 59, 197, 52, 204, 45, 211]
    else if g == 5 then [39, 217, 34, 222, 29, 227, 25, 231]
    else if g == 6 then [21, 235, 17, 239, 14, 242, 12, 244]
    else [10, 246, 9, 247, 8, 248, 8, 248]
  }

  function Doubled64(g: nat): (w: seq<u16>)
    ensures |w| == 8
  {
    if g == 0 then [255, 1, 248, 8, 240, 16, 233, 23]
    else if g == 1 then [225, 31, 218, 38, 210, 46, 203, 53]
    else if g == 2 then [196, 60, 189, 67, 182, 74, 176, 80]
    else if g == 3 then [169, 87, 163, 93, 156, 100, 150, 106]
    else if g == 4 then [144, 112, 138, 118, 133, 123, 127, 129]
    else if g == 5 then [121, 135, 116, 140, 111, 145, 106, 150]
    else if g == 6 then [101, 155, 96, 160, 91, 165, 86, 170]
    else if g == 7 then [82, 174, 77, 179, 73, 183, 69, 187]
    else if g == 8 then [65, 191, 61, 195, 57, 199, 54, 202]
    else if g == 9 then [50, 206, 47, 209, 44, 212, 41, 215]
    else if g == 10 then [38, 218, 35, 221, 32, 224, 29, 227]
    else if g == 11 then [27, 229, 25, 231, 22, 234, 20, 236]
    else if g == 12 then [18, 238, 16, 240, 15, 241, 13, 243]
    else if g == 13 then [12, 244, 10, 246, 9, 247, 8, 248]
    else if g == 14 then [7, 249, 6, 250, 6, 250, 5, 251]
    else [5, 251, 4, 252, 4, 252, 4, 252]
  }

  function DoubledLine(bs: nat, g: nat): (w: seq<u16>)
    requires Size(bs) && g < bs / 4
    ensures |w| == 8
  {
    if bs == 4 then Doubled4(g) else if bs == 8 then Doubled8(g) else if bs == 16 then Doubled16(g)
    else if bs == 32 then Doubled32(g) else Doubled64(g)
  }

  // The register loaded from place 16 * g.
  function Doubled(bs: nat, g: nat): (w: seq<u16>)
    requires Size(bs) && g < bs / 4
    ensures |w| == 16
  {
    DoubledLine(bs, g) + DoubledLine(bs, g)
  }

  // ----- sm_weights_16 to sm_weights_64: lines of eight -----

  function Columns16(l: nat): (w: seq<u16>)
    ensures |w| == 8
  {
    if l == 0 then [255, 1, 225, 31, 196, 60, 170, 86]
    else if l == 1 then [68, 188, 54, 202, 43, 213, 33, 223]
    else if l == 2 then [145, 111, 123, 133, 102, 154, 84, 172]
    else [26, 230, 20, 236, 17, 239, 16, 240]
  }

  function Columns32(l: nat): (w: seq<u16>)
    ensures |w| == 8
  {
    if l == 0 then [255, 1, 240, 16, 225, 31, 210, 46]
    else if l == 1 then [145, 111, 133, 123, 122, 134, 111, 145]
    else if l == 2 then [196, 60, 182, 74, 169, 87, 157, 99]
    else if l == 3 then [101, 155, 92, 164, 83, 173, 74, 182]
    else if l == 4 then [66, 190, 59, 197, 52, 204, 45, 211]
    else if l == 5 then [21, 235, 17, 239, 14, 242, 12, 244]
    else if l == 6 then [39, 217, 34, 222, 29, 227, 25, 231]
    else [10, 246, 9, 247, 8, 248, 8, 248]
  }

  function Columns64(l: nat): (w: seq<u16>)
    ensures |w| == 8
  {
    if l == 0 then [255, 1, 248, 8, 240, 16, 233, 23]
    else if l == 1 then [196, 60, 189, 67, 182, 74, 176, 80]
    else if l == 2 then [225, 31, 218, 38, 210, 46, 203, 53]
    else if l == 3 then [169, 87, 163, 93, 156, 100, 150, 106]
    else if l == 4 then [144, 112, 138, 118, 133, 123, 127, 129]
    else if l == 5 then [101, 155, 96, 160, 91, 165, 86, 170]
    else if l == 6 then [121, 135, 116, 140, 111, 145, 106, 150]
    else if l == 7 then [82, 174, 77, 179, 73, 183, 69, 187]
    else if l == 8 then [65, 191, 61, 195, 57, 199, 54, 202]
    else if l == 9 then [38, 218, 35, 221, 32, 224, 29, 227]
    else if l == 10 then [50, 206, 47, 209, 44, 212, 41, 215]
    else if l == 11 then [27, 229, 25, 231, 22, 234, 20, 236]
    else if l == 12 then [18, 238, 16, 240, 15, 241, 13, 243]
    else if l == 13 then [7, 249, 6, 250, 6, 250, 5, 251]
    else if l == 14 then [12, 244, 10, 246, 9, 247, 8, 248]
    else [5, 251, 4, 252, 4, 252, 4, 252]
  }

  predicate Wide(bs: nat) { bs == 16 || bs == 32 || bs == 64 }

  function ColumnLine(bs: nat, l: nat): (w: seq<u16>)
    requires Wide(bs) && l < bs / 4
    ensures |w| == 8
  {
    if bs == 16 then Columns16(l) else if bs == 32 then Columns32(l) else Columns64(l)
  }

  // The register of column weights loaded from place 16 * k; for width 8 it is from the doubled table.
  function Columns(bs: nat, k: nat): (w: seq<u16>)
    requires (bs == 8 && k < 2) || (Wide(bs) && k < bs / 8)
    ensures |w| == 16
  {
    if bs == 8 then Doubled(8, k) else ColumnLine(bs, 2 * k) + ColumnLine(bs, 2 * k + 1)
  }

  // ----- what the tables hold -----

  // A weight and its complement to 256, four times.
  function Pairs(w: seq<u16>): (p: seq<u16>)
    requires |w| == 4 && forall i :: 0 <= i < 4 ==> w[i] <= 0x100
    ensures |p| == 8
  {
    [w[0], 0x100 - w[0], w[1], 0x100 - w[1], w[2], 0x100 - w[2], w[3], 0x100 - w[3]]
  }

  lemma {:induction false} WeightBounds(bs: nat, g: nat)
    requires Size(bs) && g < bs / 4
    ensures forall i :: 0 <= i < 4 ==> 0 < Weights(bs, g)[i] < 0x100
  {
  }

  lemma {:induction false} Doubled4IsPairs(g: nat)
    requires g < 1 && forall i :: 0 <= i < 4 ==> Weights4(g)[i] <= 0x100
    ensures Doubled4(g) == Pairs(Weights4(g))
  {
  }

  lemma {:induction false} Doubled8IsPairs(g: nat)
    requires g < 2 && forall i :: 0 <= i < 4 ==> Weights8(g)[i] <= 0x100
    ensures Doubled8(g) == Pairs(Weights8(g))
  {
  }

  lemma {:induction false} Doubled16IsPairs(g: nat)
    requires g < 4 && forall i :: 0 <= i < 4 ==> Weights16(g)[i] <= 0x100
    ensures Doubled16(g) == Pairs(Weights16(g))
  {
  }

  lemma {:induction false} Doubled32IsPairs(g: nat)
    requires g < 8 && forall i :: 0 <= i < 4 ==> Weights32(g)[i] <= 0x100
    ensures Doubled32(g) == Pairs(Weights32(g))
  {
  }

  lemma {:induction false} Doubled64IsPairs(g: nat)
    requires g < 16 && forall i :: 0 <= i < 4 ==> Weights64(g)[i] <= 0x100
    ensures Doubled64(g) == Pairs(Weights64(g))
  {
  }

  // A register of row weights holds the weights of four rows, in both halves.
  lemma {:induction false} DoubledIsPairs(bs: nat, g: nat)
    requires Size(bs) && g < bs / 4
    ensures forall i :: 0 <= i < 4 ==> Weights(bs, g)[i] <= 0x100
    ensures DoubledLine(bs, g) == Pairs(Weights(bs, g))
  {
    WeightBounds(bs, g);
    hide Weights4, Weights8, Weights16, Weights32, Weights64, Doubled4, Doubled8, Doubled16, Doubled32, Doubled64,
        Pairs;
    if bs == 4 {
      Doubled4IsPairs(g);
    } else if bs == 8 {
      Doubled8IsPairs(g);
    } else if bs == 16 {
      Doubled16IsPairs(g);
    } else if bs == 32 {
      Doubled32IsPairs(g);
    } else {
      Doubled64IsPairs(g);
    }
  }

  // The group of four columns a line of the shuffled tables is for: the middle two of every
  // four groups are exchanged.
  function Shuffled(l: nat): nat { if l % 4 == 1 then l + 1 else if l % 4 == 2 then l - 1 else l }

  lemma {:induction false} Columns16IsPairs(l: nat)
    requires l < 4 && forall i :: 0 <= i < 4 ==> Weights16(Shuffled(l))[i] <= 0x100
    ensures Columns16(l) == Pairs(Weights16(Shuffled(l)))
  {
  }

  lemma {:induction false} Columns32IsPairs(l: nat)
    requires l < 8 && forall i :: 0 <= i < 4 ==> Weights32(Shuffled(l))[i] <= 0x100
    ensures Columns32(l) == Pairs(Weights32(Shuffled(l)))
  {
  }

  lemma {:induction false} Columns64IsPairs(l: nat)
    requires l < 16 && forall i :: 0 <= i < 4 ==> Weights64(Shuffled(l))[i] <= 0x100
    ensures Columns64(l) == Pairs(Weights64(Shuffled(l)))
  {
  }

  lemma {:induction false} ColumnsArePairs(bs: nat, l: nat)
    requires Wide(bs) && l < bs / 4
    ensures Shuffled(l) < bs / 4 && forall i :: 0 <= i < 4 ==> Weights(bs, Shuffled(l))[i] <= 0x100
    ensures ColumnLine(bs, l) == Pairs(Weights(bs, Shuffled(l)))
  {
    WeightBounds(bs, Shuffled(l));
    hide Weights4, Weights8, Weights16, Weights32, Weights64, Columns16, Columns32, Columns64, Pairs;
    if bs == 16 {
      Columns16IsPairs(l);
    } else if bs == 32 {
      Columns32IsPairs(l);
    } else {
      Columns64IsPairs(l);
    }
  }
}
