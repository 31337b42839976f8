/** The growing memory buffer of src/mem/membuf.c and src/mem/sys_mem.c (struct membuf), without a stream. */
module MemBuffer {
  import opened Bytes

  /** `len` doubled until it is more than `newlen`. */
  function Doubled(len: nat, newlen: nat): (r: nat)
    requires 0 < len
    ensures newlen < r && len <= r
    decreases newlen - len
  {
    if newlen < len then len else Doubled(2 * len, newlen)
  }

  class Membuf {
    var data: array<byte>
    var offset: nat           // bytes in use
    const canGrow: bool       // MEM_ALLOC

    ghost predicate Valid()
      reads this
    {
      0 < data.Length && offset <= data.Length
    }

    ghost function Contents(): seq<byte>
      reads this, data
      requires Valid()
    {
      data[..offset]
    }

    constructor (len: nat, growing: bool)
      requires 0 < len
      ensures Valid() && offset == 0 && data.Length == len && canGrow == growing && fresh(data)
    {
      data := new byte[len];
      offset, canGrow := 0, growing;
    }

    /**
     membuf_addlstring without a string: room for `size` bytes and one more, the length being doubled as
     often as it takes; `memory` says whether realloc succeeds.
     */
    method MakeRoom(size: nat, memory: bool) returns (ok: bool)
      requires Valid()
      modifies this
      ensures Valid() && offset == old(offset) && Contents() == old(Contents())
      ensures data == old(data) || fresh(data)
      ensures data.Length >= old(data.Length) && data[..old(data.Length)] == old(data[..])
      ensures ok <==> old(offset + size < data.Length || (canGrow && memory))
      ensures if ok then data.Length == Doubled(old(data.Length), offset + size) else data == old(data)
    {
      var newlen := offset + size;
      if newlen >= data.Length {
        var len := 2 * data.Length;
        while len <= newlen
          invariant 2 * data.Length <= len && Doubled(len, newlen) == Doubled(data.Length, newlen)
          decreases newlen - len
        {
          len := 2 * len;
        }
        if !canGrow || !memory {
          return false;
        }
        var p := new byte[len];
        forall i | 0 <= i < data.Length {
          p[i] := data[i];
        }
        data := p;
      }
      ok := true;
    }

    /** memcpy into the buffer. */
    method Copy(at: nat, s: seq<byte>)
      requires at + |s| <= data.Length
      modifies data
      ensures data[..] == Splice(old(data[..]), at, s)
    {
      ghost var d := data[..];
      for i := 0 to |s|
        invariant data[..] == Splice(d, at, s[..i])
      {
        data[at + i] := s[i];
        assert s[..i + 1] == s[..i] + [s[i]];
      }
      assert s[..|s|] == s;
    }

    /** membuf_addlstring. */
    method AddLString(s: seq<byte>, memory: bool) returns (ok: bool)
      requires Valid()
      modifies this, data
      ensures Valid() && (data == old(data) || fresh(data))
      ensures ok <==> old(offset + |s| < data.Length || (canGrow && memory))
      ensures Contents() == if ok then old(Contents()) + s else old(Contents())
    {
      ok := MakeRoom(|s|, memory);
      if ok {
        Copy(offset, s);
        offset := offset + |s|;
      }
    }

    /** The first `n` bytes have been read: sys_buffer_read_next. */
    method ReadNext(n: nat)
      requires Valid() && n <= offset
      modifies this, data
      ensures Valid() && data == old(data) && Contents() == old(Contents())[n..]
    {
      if offset == n {
        offset := 0;
      } else {
        offset := offset - n;
        ghost var d := data[..];
        for i := 0 to offset
          invariant data == old(data) && |d| == data.Length && offset + n == old(offset) <= data.Length
          invariant forall j :: 0 <= j < i ==> data[j] == d[j + n]
          invariant forall j :: i <= j < data.Length ==> data[j] == d[j]
        {
          data[i] := data[i + n];
        }
      }
    }
  }
}
