/**
 Slices: a stretch of an array that can be appended to, in place while the array has room.
 */
module Slices {
  import opened Bytes

  /** A slice of an array; its capacity is what the array holds from off on. */
  datatype ByteSlice = ByteSlice(arr: array<byte>, off: nat, len: nat)

  ghost predicate ValidSlice(s: ByteSlice)
  {
    s.off + s.len <= s.arr.Length
  }

  /** Appends in place while there is room, or else to a copy in a larger array. */
  method Append(s: ByteSlice, b: bytes) returns (t: ByteSlice)
    requires ValidSlice(s)
    modifies s.arr
    ensures ValidSlice(t) && t.len == s.len + |b|
    ensures t.arr[t.off..t.off + t.len] == old(s.arr[s.off..s.off + s.len]) + b
    ensures (t.arr == s.arr && t.off == s.off) || fresh(t.arr)
    ensures t.arr != s.arr ==> t.arr.Length - t.off > s.arr.Length - s.off && s.off + t.len > s.arr.Length
    ensures forall i :: 0 <= i < s.off ==> s.arr[i] == old(s.arr[i])
  {
    ghost var before := s.arr[s.off..s.off + s.len];
    if s.off + s.len + |b| <= s.arr.Length {
      forall i | 0 <= i < |b| {
        s.arr[s.off + s.len + i] := b[i];
      }
      t := s.(len := s.len + |b|);
    } else {
      var capacity :| capacity >= s.len + |b|;
      var arr := new byte[capacity](_ => 0);
      forall i | 0 <= i < s.len {
        arr[i] := s.arr[s.off + i];
      }
      forall i | 0 <= i < |b| {
        arr[s.len + i] := b[i];
      }
      t := ByteSlice(arr, 0, s.len + |b|);
      assert arr[..s.len] == before;
    }
  }
}
