/** The weights of blending masks. */
module MaskWeights {
  import opened MachineInts

  const MAX_ALPHA := 64

  ghost predicate IsMask(m: seq<u8>) {
    forall i :: 0 <= i < |m| ==> m[i] <= MAX_ALPHA
  }
}
