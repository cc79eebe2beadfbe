/** Byte buffers as the secure element handles them: the LoRaMac utility
    routines memset1, memcpy1 and memcpyr over arrays, the sequence functions
    that specify them, and Option for a pointer argument that may be NULL. */
module Bytes {

  /** A pointer argument: None is a NULL pointer, Some(v) points at the bytes v. */
  datatype Option<+T> = None | Some(value: T)

  /** `s` written backwards. */
  function Reverse<T>(s: seq<T>): (r: seq<T>)
    ensures |r| == |s|
  {
    if s == [] then [] else Reverse(s[1..]) + [s[0]]
  }

  /** Element `k` of the reversed sequence is element `|s| - 1 - k` of `s`. */
  lemma {:induction false} ReverseAt<T>(s: seq<T>, k: nat)
    requires k < |s|
    ensures Reverse(s)[k] == s[|s| - 1 - k]
  {
    if k < |s| - 1 {
      ReverseAt(s[1..], k);
    }
  }

  /** `buf` with `data` written over it from offset `off`; every other byte stays. */
  function Overlay<T>(buf: seq<T>, off: nat, data: seq<T>): (r: seq<T>)
    requires off + |data| <= |buf|
    ensures |r| == |buf|
  {
    buf[..off] + data + buf[off + |data|..]
  }

  /** After the overlay, `data` sits at `off` and the bytes before and after
      it are those of `buf`. */
  lemma OverlayParts<T>(buf: seq<T>, off: nat, data: seq<T>)
    requires off + |data| <= |buf|
    ensures var r := Overlay(buf, off, data);
      && r[..off] == buf[..off]
      && r[off..off + |data|] == data
      && r[off + |data|..] == buf[off + |data|..]
  {
  }

  /** memset1: the first `size` bytes of `dst` become `value`. */
  method Memset1(dst: array<bv8>, value: bv8, size: nat)
    requires size <= dst.Length
    modifies dst
    ensures dst[..] == Overlay(old(dst[..]), 0, seq(size, _ => value))
  {
    var i := 0;
    while i < size
      invariant 0 <= i <= size
      invariant forall k :: 0 <= k < i ==> dst[k] == value
      invariant forall k :: i <= k < dst.Length ==> dst[k] == old(dst[k])
    {
      dst[i] := value;
      i := i + 1;
    }
    assert dst[..] == Overlay(old(dst[..]), 0, seq(size, _ => value));
  }

  /** memcpy1: the first `size` bytes of `src` are copied to `dst` from offset `off`. */
  method Memcpy1(dst: array<bv8>, off: nat, src: seq<bv8>, size: nat)
    requires size <= |src| && off + size <= dst.Length
    modifies dst
    ensures dst[..] == Overlay(old(dst[..]), off, src[..size])
  {
    var i := 0;
    while i < size
      invariant 0 <= i <= size
      invariant forall k :: 0 <= k < i ==> dst[off + k] == src[k]
      invariant forall k :: 0 <= k < dst.Length && !(off <= k < off + i) ==> dst[k] == old(dst[k])
    {
      dst[off + i] := src[i];
      i := i + 1;
    }
    assert dst[..] == Overlay(old(dst[..]), off, src[..size]);
  }

  /** memcpyr: the first `size` bytes of `src` are copied to `dst` from offset
      `off` in reverse order, the last source byte landing first. */
  method Memcpyr(dst: array<bv8>, off: nat, src: seq<bv8>, size: nat)
    requires size <= |src| && off + size <= dst.Length
    modifies dst
    ensures dst[..] == Overlay(old(dst[..]), off, Reverse(src[..size]))
  {
    var i := 0;
    while i < size
      invariant 0 <= i <= size
      invariant forall k :: 0 <= k < i ==> dst[off + size - 1 - k] == src[k]
      invariant forall k :: 0 <= k < dst.Length && !(off + size - i <= k < off + size) ==> dst[k] == old(dst[k])
    {
      dst[off + size - 1 - i] := src[i];
      i := i + 1;
    }
    var reversed := Reverse(src[..size]);
    forall k | 0 <= k < size
      ensures dst[off + k] == reversed[k]
    {
      ReverseAt(src[..size], k);
      assert dst[off + size - 1 - (size - 1 - k)] == src[size - 1 - k];
    }
    assert dst[..] == Overlay(old(dst[..]), off, reversed);
  }
}
