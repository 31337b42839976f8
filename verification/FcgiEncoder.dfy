/** fcgi_encode of src/isa/fcgi/sys_fcgi.c with the stores it makes into the output buffer. */
module FcgiEncoder {
  import opened Bytes
  import opened FcgiRecord
  import opened FcgiEncode
  import opened MemBuffer

  datatype Result = Offset(n: nat) | TooLong | NoMemory

  /** The bytes of a record, stored field by field into `d` at `n`: the header without its length and padding
      fields, the content, these fields, the padding. */
  function RecordStores(d: seq<byte>, n: nat, id: nat, s: seq<byte>, pad: nat): (r: seq<byte>)
    requires n + HEADER_LEN + |s| + pad <= |d| && pad < 8 && |s| <= MAX_CONTENT
    ensures |r| == |d|
  {
    var d1 := Splice(d, n, [VERSION, STDOUT, Hi(Id16(id)), Lo(Id16(id))])[n + 7 := 0];
    var d2 := Patched(Splice(d1, n + HEADER_LEN, s), n + 4, |s|, pad);
    Splice(d2, n + HEADER_LEN + |s|, Zeros(pad))
  }

  lemma RecordStored(d: seq<byte>, n: nat, id: nat, s: seq<byte>, pad: nat)
    requires n + HEADER_LEN + |s| + pad <= |d| && pad < 8 && |s| <= MAX_CONTENT
    ensures RecordStores(d, n, id, s, pad)[..n + HEADER_LEN + |s| + pad] == d[..n] + Encoded(Written(STDOUT, id, s, pad))
  {
    var w := Written(STDOUT, id, s, pad);
    var r, q := RecordStores(d, n, id, s, pad), d[..n] + Encoded(w);
    forall i | 0 <= i < |q|
      ensures r[i] == q[i]
    {
      if n <= i < n + HEADER_LEN {
        assert q[i] == Header(w)[i - n];
      }
    }
  }

  function EndStores(d: seq<byte>, n: nat, id: nat): (r: seq<byte>)
    requires n + 2 * HEADER_LEN + END_LEN <= |d|
    ensures |r| == |d|
  {
    var d1 := Splice(d, n, [VERSION, STDOUT, Hi(Id16(id)), Lo(Id16(id))])[n + 7 := 0];
    var d2 := Splice(d1, n + HEADER_LEN, [VERSION, END_REQUEST, Hi(Id16(id)), Lo(Id16(id)), 0, END_LEN, 0, 0]);
    Patched(Splice(d2, n + 2 * HEADER_LEN, Zeros(END_LEN)), n + 4, 0, 0)
  }

  lemma EndStored(d: seq<byte>, n: nat, id: nat)
    requires n + 2 * HEADER_LEN + END_LEN <= |d|
    ensures EndStores(d, n, id)[..n + 2 * HEADER_LEN + END_LEN]
            == d[..n] + Encoded(Written(STDOUT, id, [], 0)) + Encoded(Written(END_REQUEST, id, Zeros(END_LEN), 0))
  {
    var a, b := Written(STDOUT, id, [], 0), Written(END_REQUEST, id, Zeros(END_LEN), 0);
    var r, q := EndStores(d, n, id), d[..n] + Encoded(a) + Encoded(b);
    forall i | 0 <= i < |q|
      ensures r[i] == q[i]
    {
      if n <= i < n + HEADER_LEN {
        assert q[i] == Header(a)[i - n];
      } else if n + HEADER_LEN <= i < n + 2 * HEADER_LEN {
        assert q[i] == Header(b)[i - n - HEADER_LEN];
      }
    }
  }

  /** The stores that make the last record longer: the data, the length and padding fields, the padding. */
  function JoinStores(d: seq<byte>, n: nat, prev: nat, len: nat, was: nat, s: seq<byte>, pad: nat): (r: seq<byte>)
    requires 3 <= prev <= n && was <= n <= |d| && n - was + |s| + pad <= |d| && pad < 256 && was <= |s| + pad && len <= MAX_CONTENT
    ensures |r| == |d|
  {
    Splice(Patched(Splice(d, n - was, s), n - prev, len, pad), n - was + |s|, Zeros(pad))
  }

  lemma JoinStored(d: seq<byte>, n: nat, prev: nat, len: nat, was: nat, s: seq<byte>, pad: nat)
    requires n <= |d| && Readable(d[..n], prev) && prev != 0 && was == d[n - prev + 2] as int
    requires len == Be16(d[n - prev], d[n - prev + 1]) + |s| <= MAX_CONTENT && pad == PaddingAfter(was, |s|)
    requires n - was + |s| + pad <= |d|
    ensures was + 3 <= prev <= n && pad < 256
    ensures JoinStores(d, n, prev, len, was, s, pad)[..n - was + |s| + pad] == Extended(d[..n], prev, s)
  {
    var out, at, x := d[..n], n - prev, Splice(d, n - was, s);
    assert out[at + 2] == d[at + 2] && out[at] == d[at] && out[at + 1] == d[at + 1];
    SplicedPrefix(d, n, n - was, s);
    PatchedThenFilled(x, at, len, pad, n - was + |s|, Zeros(pad));
    ExtendedWith(out, prev, s, at, was, len, x[..n - was + |s|] + Zeros(pad));
  }

  lemma SplicedPrefix(d: seq<byte>, n: nat, at: nat, s: seq<byte>)
    requires at <= n <= |d| && at + |s| <= |d|
    ensures Splice(d, at, s)[..at + |s|] == d[..n][..at] + s
  {
  }

  lemma PatchedThenFilled(x: seq<byte>, at: nat, len: nat, pad: nat, m: nat, z: seq<byte>)
    requires at + 2 < m && m + |z| <= |x| && pad < 256 && len <= MAX_CONTENT
    ensures Splice(Patched(x, at, len, pad), m, z)[..m + |z|] == Patched(x[..m] + z, at, len, pad)
  {
  }

  /** fcgi_encode; `memory` says whether realloc succeeds. */
  method Encode(mb: Membuf, id: nat, prev: nat, s: seq<byte>, memory: bool) returns (r: Result)
    requires mb.Valid() && Readable(mb.Contents(), prev)
    modifies mb, mb.data
    ensures mb.Valid() && (mb.data == old(mb.data) || fresh(mb.data))
    ensures r == TooLong <==> |s| > MAX_CONTENT
    ensures r == NoMemory ==> !mb.canGrow || !memory
    ensures if r.Offset? then (mb.Contents(), r.n) == Step(old(mb.Contents()), id, prev, s)
            else mb.Contents() == old(mb.Contents())
  {
    if |s| > MAX_CONTENT {
      return TooLong;
    }
    var prevOffset, prevLen, prevPadding, padding, dataLen := Plan(mb, id, prev, |s|);
    if dataLen > 0 {
      var ok := mb.MakeRoom(dataLen, memory);
      if !ok {
        return NoMemory;
      }
    }
    var n: nat;
    if prevOffset != 0 {
      n := JoinRecord(mb, id, prevOffset, prevLen, prevPadding, s, padding);
    } else if |s| > 0 {
      n := AppendRecord(mb, id, prev, s, padding);
    } else {
      n := AppendEnd(mb, id, prev, s);
    }
    r := Offset(n);
  }

  /** Whether the data joins the previous record, how the record is padded then, and by how much the buffer grows. */
  method Plan(mb: Membuf, id: nat, prev: nat, len: nat)
    returns (prevOffset: nat, prevLen: nat, prevPadding: nat, padding: nat, dataLen: nat)
    requires mb.Valid() && Readable(mb.Contents(), prev) && len <= MAX_CONTENT
    ensures prevOffset != 0 <==> Joins(mb.Contents(), id, prev, len)
    ensures prevOffset != 0 ==>
              && prevOffset == prev <= mb.offset && Found(mb, prev, prevLen, prevPadding)
              && padding == PaddingAfter(prevPadding, len) && dataLen == len + padding - prevPadding
    ensures prevOffset == 0 && len > 0 ==> padding == Padding(HEADER_LEN + len) && dataLen == HEADER_LEN + len + padding
    ensures len == 0 ==> padding == 0 && dataLen == 2 * HEADER_LEN + END_LEN
  {
    prevOffset, prevLen, prevPadding := FindPrevious(mb, id, prev);
    var n: int;
    if len == 0 {
      n, prevOffset := 2 * HEADER_LEN + END_LEN, 0;
    } else {
      n := len;
      if prevOffset == 0 || prevLen + len > MAX_CONTENT {
        n, prevOffset := n + HEADER_LEN, 0;
      } else {
        n := n - prevPadding;
      }
    }
    if n <= 0 {
      padding, dataLen := prevPadding - len, 0;
    } else {
      PaddingFills(n);
      padding := 8 - n % 8;
      if padding == 8 {
        padding := 0;
      }
      dataLen := n + padding;
    }
  }

  /** The length and padding fields that an offset leads to. */
  ghost predicate Found(mb: Membuf, prev: nat, len: nat, padding: nat)
    reads mb, mb.data
  {
    && mb.Valid() && padding + 3 <= prev <= mb.offset && 3 <= prev && padding < 256
    && len == Be16(mb.data[mb.offset - prev], mb.data[mb.offset - prev + 1])
    && padding == mb.data[mb.offset - prev + 2] as int
  }

  method JoinRecord(mb: Membuf, id: nat, prev: nat, prevLen: nat, prevPadding: nat, s: seq<byte>, padding: nat) returns (n: nat)
    requires Found(mb, prev, prevLen, prevPadding) && Readable(mb.Contents(), prev) && prev != 0
    requires |s| <= MAX_CONTENT && Joins(mb.Contents(), id, prev, |s|)
    requires padding == PaddingAfter(prevPadding, |s|) && mb.offset - prevPadding + |s| + padding <= mb.data.Length
    modifies mb`offset, mb.data
    ensures mb.Valid() && (mb.Contents(), n) == Step(old(mb.Contents()), id, prev, s)
  {
    ghost var out := mb.Contents();
    StepJoins(out, id, prev, s, prevPadding);
    FoundIn(mb, prev, prevLen, prevPadding);
    StoreJoined(mb, out, prev, prevLen, prevPadding, s, padding);
    n := prev - prevPadding + |s| + padding;
  }

  lemma FoundIn(mb: Membuf, prev: nat, len: nat, padding: nat)
    requires Found(mb, prev, len, padding)
    ensures var out, at := mb.Contents(), mb.offset - prev;
            out[at + 2] as int == padding && Be16(out[at], out[at + 1]) == len
  {
    var out, at := mb.Contents(), mb.offset - prev;
    assert out[at] == mb.data[at] && out[at + 1] == mb.data[at + 1] && out[at + 2] == mb.data[at + 2];
  }

  method StoreJoined(mb: Membuf, ghost out: seq<byte>, prev: nat, prevLen: nat, prevPadding: nat, s: seq<byte>, padding: nat)
    requires mb.Valid() && out == mb.Contents() && Readable(out, prev) && prev != 0
    requires out[|out| - prev + 2] as int == prevPadding && Be16(out[|out| - prev], out[|out| - prev + 1]) == prevLen
    requires padding == PaddingAfter(prevPadding, |s|) && mb.offset - prevPadding + |s| + padding <= mb.data.Length
    requires prevLen + |s| <= MAX_CONTENT
    modifies mb`offset, mb.data
    ensures mb.Valid() && mb.Contents() == Extended(out, prev, s)
  {
    ghost var d, m := mb.data[..], mb.offset;
    assert d[..m] == out;
    JoinStored(d, m, prev, prevLen + |s|, prevPadding, s, padding);
    WriteJoined(mb, prev, prevLen, prevPadding, s, padding);
    ghost var d' := mb.data[..];
    mb.offset := mb.offset - prevPadding + |s| + padding;
    assert mb.Contents() == d'[..mb.offset];
  }

  lemma StepJoins(out: seq<byte>, id: nat, prev: nat, s: seq<byte>, was: nat)
    requires Readable(out, prev) && prev != 0 && |s| <= MAX_CONTENT && Joins(out, id, prev, |s|)
    requires was == out[|out| - prev + 2] as int
    ensures Step(out, id, prev, s) == (Extended(out, prev, s), prev - was + |s| + PaddingAfter(was, |s|))
  {
  }

  method AppendRecord(mb: Membuf, id: nat, ghost prev: nat, s: seq<byte>, padding: nat) returns (n: nat)
    requires mb.Valid() && 0 < |s| <= MAX_CONTENT && padding == Padding(HEADER_LEN + |s|)
    requires Readable(mb.Contents(), prev) && !Joins(mb.Contents(), id, prev, |s|)
    requires mb.offset + HEADER_LEN + |s| + padding <= mb.data.Length
    modifies mb`offset, mb.data
    ensures mb.Valid() && (mb.Contents(), n) == Step(old(mb.Contents()), id, prev, s)
  {
    StepApart(mb.Contents(), id, prev, s);
    StoreRecord(mb, id, s, padding);
    n := 4 + |s| + padding;
  }

  method StoreRecord(mb: Membuf, id: nat, s: seq<byte>, padding: nat)
    requires mb.Valid() && |s| <= MAX_CONTENT && padding < 8
    requires mb.offset + HEADER_LEN + |s| + padding <= mb.data.Length
    modifies mb`offset, mb.data
    ensures mb.Valid() && mb.Contents() == old(mb.Contents()) + Encoded(Written(STDOUT, id, s, padding))
  {
    ghost var d, m := mb.data[..], mb.offset;
    assert d[..m] == mb.Contents();
    RecordStored(d, m, id, s, padding);
    WriteRecord(mb, id, s, padding);
    ghost var d' := mb.data[..];
    mb.offset := mb.offset + HEADER_LEN + |s| + padding;
    assert mb.Contents() == d'[..mb.offset];
  }

  method AppendEnd(mb: Membuf, id: nat, ghost prev: nat, ghost s: seq<byte>) returns (n: nat)
    requires mb.Valid() && s == [] && Readable(mb.Contents(), prev)
    requires mb.offset + 2 * HEADER_LEN + END_LEN <= mb.data.Length
    modifies mb`offset, mb.data
    ensures mb.Valid() && (mb.Contents(), n) == Step(old(mb.Contents()), id, prev, s)
  {
    ghost var d, m := mb.data[..], mb.offset;
    assert d[..m] == mb.Contents();
    EndStored(d, m, id);
    WriteEnd(mb, id);
    ghost var d' := mb.data[..];
    mb.offset := mb.offset + 2 * HEADER_LEN + END_LEN;
    assert mb.Contents() == d'[..mb.offset];
    n := END_OFFSET;
  }

  /** The fields of the previous record, if its id is that of this request. */
  method FindPrevious(mb: Membuf, id: nat, prev: nat) returns (at: nat, len: nat, padding: nat)
    requires mb.Valid() && Readable(mb.Contents(), prev)
    ensures at != 0 ==> at == prev && Found(mb, prev, len, padding)
    ensures forall n: nat :: Joins(mb.Contents(), id, prev, n) <==> at != 0 && n > 0 && len + n <= MAX_CONTENT
  {
    at, len, padding := 0, 0, 0;
    if prev != 0 {
      var cp := mb.offset - prev;
      assert mb.Contents()[cp] == mb.data[cp] && mb.Contents()[cp - 1] == mb.data[cp - 1];
      if mb.data[cp - 1] == Lo(Id16(id)) && mb.data[cp - 2] == Hi(Id16(id)) {
        at, len, padding := prev, Be16(mb.data[cp], mb.data[cp + 1]), mb.data[cp + 2] as int;
      }
    }
  }

  method WriteFields(mb: Membuf, lenp: nat, len: nat, padding: nat)
    requires lenp + 2 < mb.data.Length && padding < 256 && len <= MAX_CONTENT
    modifies mb.data
    ensures mb.data[..] == Patched(old(mb.data[..]), lenp, len, padding)
  {
    BytesOf16(len);
    mb.data[lenp] := len / 256;
    mb.data[lenp + 1] := len % 256;
    mb.data[lenp + 2] := padding;
  }

  /** The data is written over the previous record's padding. */
  method WriteJoined(mb: Membuf, prev: nat, prevLen: nat, prevPadding: nat, s: seq<byte>, padding: nat)
    requires mb.Valid() && 3 <= prev <= mb.offset && prevPadding <= mb.offset && padding < 256 && prevLen + |s| <= MAX_CONTENT
    requires prevPadding <= |s| + padding && mb.offset - prevPadding + |s| + padding <= mb.data.Length
    modifies mb.data
    ensures mb.data[..] == JoinStores(old(mb.data[..]), mb.offset, prev, prevLen + |s|, prevPadding, s, padding)
  {
    var cp, lenp := mb.offset - prevPadding, mb.offset - prev;
    WriteMore(mb, cp, s, lenp, prevLen + |s|, padding);
    mb.Copy(cp + |s|, Zeros(padding));
  }

  method WriteMore(mb: Membuf, cp: nat, s: seq<byte>, lenp: nat, len: nat, padding: nat)
    requires cp + |s| <= mb.data.Length && lenp + 2 < mb.data.Length && padding < 256 && len <= MAX_CONTENT
    modifies mb.data
    ensures mb.data[..] == Patched(Splice(old(mb.data[..]), cp, s), lenp, len, padding)
  {
    mb.Copy(cp, s);
    WriteFields(mb, lenp, len, padding);
  }

  method WriteRecord(mb: Membuf, id: nat, s: seq<byte>, padding: nat)
    requires mb.Valid() && mb.offset + HEADER_LEN + |s| + padding <= mb.data.Length && padding < 8 && |s| <= MAX_CONTENT
    modifies mb.data
    ensures mb.data[..] == RecordStores(old(mb.data[..]), mb.offset, id, s, padding)
  {
    WriteHead(mb, id);
    mb.Copy(mb.offset + HEADER_LEN, s);
    WriteFields(mb, mb.offset + 4, |s|, padding);
    mb.Copy(mb.offset + HEADER_LEN + |s|, Zeros(padding));
  }

  /** The header of an output record but for its length and padding. */
  method WriteHead(mb: Membuf, id: nat)
    requires mb.Valid() && mb.offset + HEADER_LEN <= mb.data.Length
    modifies mb.data
    ensures mb.data[..] == Splice(old(mb.data[..]), mb.offset, [VERSION, STDOUT, Hi(Id16(id)), Lo(Id16(id))])[mb.offset + 7 := 0]
  {
    mb.Copy(mb.offset, [VERSION, STDOUT, Hi(Id16(id)), Lo(Id16(id))]);
    mb.data[mb.offset + 7] := 0;
  }

  method WriteEnd(mb: Membuf, id: nat)
    requires mb.Valid() && mb.offset + 2 * HEADER_LEN + END_LEN <= mb.data.Length
    modifies mb.data
    ensures mb.data[..] == EndStores(old(mb.data[..]), mb.offset, id)
  {
    WriteHead(mb, id);
    mb.Copy(mb.offset + HEADER_LEN, [VERSION, END_REQUEST, Hi(Id16(id)), Lo(Id16(id)), 0, END_LEN, 0, 0]);
    mb.Copy(mb.offset + 2 * HEADER_LEN, Zeros(END_LEN));
    WriteFields(mb, mb.offset + 4, 0, 0);
  }
}
