/** memcpy and memset on arrays. */
module Memory {
  // memcpy(dst + at, src, |src|)
  method Copy<T>(dst: array<T>, at: nat, src: seq<T>)
    requires at + |src| <= dst.Length
    modifies dst
    ensures dst[..] == old(dst[..at]) + src + old(dst[at + |src|..])
  {
    forall i | 0 <= i < |src| {
      dst[at + i] := src[i];
    }
  }

  // memset(dst + at, value, count)
  method Fill<T>(dst: array<T>, at: nat, value: T, count: nat)
    requires at + count <= dst.Length
    modifies dst
    ensures dst[..] == old(dst[..at]) + seq(count, _ => value) + old(dst[at + count..])
  {
    forall i | 0 <= i < count {
      dst[at + i] := value;
    }
  }
}
