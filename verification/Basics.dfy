/** Types, a function and a copy loop that several modules share. */
module Basics {

  datatype Option<T> = None | Some(value: T)

  type byte = x: int | 0 <= x < 256

  const W32: nat := 0x1_0000_0000

  type u32 = x: int | 0 <= x < W32

  const W64: nat := 0x1_0000_0000_0000_0000

  type u64 = x: int | 0 <= x < W64

  function Pow2(i: nat): (p: nat)
    ensures p > 0
  {
    if i == 0 then 1 else 2 * Pow2(i - 1)
  }

  /** out[at..at + |s|].copy_from_slice(s). */
  method CopyIn(s: seq<byte>, out: array<byte>, at: nat)
    requires at + |s| <= out.Length
    modifies out
    ensures out[at..at + |s|] == s
    ensures forall k :: 0 <= k < at || at + |s| <= k < out.Length ==> out[k] == old(out[k])
  {
    var i := 0;
    while i < |s|
      invariant 0 <= i <= |s|
      invariant forall k :: 0 <= k < i ==> out[at + k] == s[k]
      invariant forall k :: 0 <= k < at || at + |s| <= k < out.Length ==> out[k] == old(out[k])
    {
      out[at + i] := s[i];
      i := i + 1;
    }
  }
}
