/** Bytes and the small value types every other module uses. */
module Bytes {

  newtype byte = x: int | 0 <= x < 256

  datatype Option<+T> = None | Some(value: T)

  function Min(a: int, b: int): int {
    if a < b then a else b
  }

  /** Every element of the log is there once. */
  ghost predicate NoRepeats<T>(log: seq<T>) {
    forall i, j :: 0 <= i < j < |log| ==> log[i] != log[j]
  }

  /** `bytes` written over `memory` from position `at`. */
  ghost function Overwrite(memory: seq<byte>, at: nat, bytes: seq<byte>): (r: seq<byte>)
    requires at + |bytes| <= |memory|
    ensures |r| == |memory|
  {
    memory[..at] + bytes + memory[at + |bytes|..]
  }

  lemma OverwriteTwice(memory: seq<byte>, at: nat, a: seq<byte>, b: seq<byte>)
    requires at + |a| + |b| <= |memory|
    ensures Overwrite(Overwrite(memory, at, a), at + |a|, b) == Overwrite(memory, at, a + b)
  {
  }

  lemma OverwriteExtend(memory: seq<byte>, at: nat, src: seq<byte>, i: nat)
    requires at + |src| <= |memory| && i < |src|
    ensures Overwrite(memory, at, src[..i])[at + i := src[i]] == Overwrite(memory, at, src[..i + 1])
  {
  }

  /** `memcpy` into an array from bytes that do not overlap it. */
  method CopyInto(dst: array<byte>, at: nat, src: seq<byte>)
    requires at + |src| <= dst.Length
    modifies dst
    ensures dst[..] == Overwrite(old(dst[..]), at, src)
  {
    for i := 0 to |src|
      invariant dst[..] == Overwrite(old(dst[..]), at, src[..i])
    {
      ghost var before := dst[..];
      dst[at + i] := src[i];
      assert dst[..] == before[at + i := src[i]];
      OverwriteExtend(old(dst[..]), at, src, i);
    }
    assert src[..|src|] == src;
  }
}
