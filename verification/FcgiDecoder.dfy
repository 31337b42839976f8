/** fcgi_decode of src/isa/fcgi/sys_fcgi.c with its cursors, on the channel's table and the input buffer. */
module FcgiDecoder {
  import opened Bytes
  import opened FcgiRecord
  import opened FcgiDecode
  import opened MemBuffer

  /** The length field at `cp`: the cursor behind it, or `ok` false. */
  method ReadLength(c: seq<byte>, cp: nat) returns (ok: bool, len: nat, cp': nat)
    requires cp < |c|
    ensures ok <==> Length(c[cp..]).Some?
    ensures ok ==> Length(c[cp..]) == Some((len, cp' - cp)) && cp < cp' <= |c|
  {
    len, cp' := c[cp] as int, cp + 1;
    ok := true;
    if len >= 128 {
      if cp' + 3 >= |c| {
        ok := false;
        return;
      }
      ghost var rest := c[cp..];
      assert rest[0] == c[cp] && rest[1] == c[cp'] && rest[2] == c[cp' + 1] && rest[3] == c[cp' + 2];
      len := len - 128;
      len := 256 * len + c[cp'] as int;
      len := 256 * len + c[cp' + 1] as int;
      len := 256 * len + c[cp' + 2] as int;
      cp' := cp' + 3;
    }
  }

  lemma Slices(c: seq<byte>, cp: nat, a: nat, b: nat)
    requires cp <= a <= b <= |c|
    ensures c[cp..][a - cp..b - cp] == c[a..b] && c[cp..][a - cp..] == c[a..]
  {
  }

  /** Where the name and the value of the pair at `cp` start and end, or `ok` false. */
  method ReadPair(c: seq<byte>, cp: nat) returns (ok: bool, name: nat, value: nat, end: nat)
    requires cp < |c|
    ensures ok <==> FirstPair(c[cp..]).Some?
    ensures ok ==> cp < name <= value <= end <= |c| && FirstPair(c[cp..]) == Some(Span(name - cp, value - cp, end - cp))
  {
    var nameLen, valueLen: nat;
    name, value, end := cp, cp, cp;
    ok, nameLen, name := ReadLength(c, cp);
    if !ok {
      return;
    }
    if name >= |c| {
      ok := false;
      return;
    }
    Slices(c, cp, name, |c|);
    ok, valueLen, name := ReadLength(c, name);
    if !ok {
      return;
    }
    value, end := name + nameLen, name + nameLen + valueLen;
    ok := end <= |c|;
  }

  lemma TakePair(q: Request, c: seq<byte>, cp: nat, name: nat, value: nat, end: nat)
    requires cp < name <= value <= end <= |c| && FirstPair(c[cp..]) == Some(Span(name - cp, value - cp, end - cp))
    ensures DecodeParams(q, c[cp..]) == DecodeParams(q[c[name..value] := Str(c[value..end])], c[end..])
  {
    Slices(c, cp, name, value);
    Slices(c, cp, value, end);
    Slices(c, cp, end, |c|);
    ParamsStep(q, c[cp..], Span(name - cp, value - cp, end - cp), c[name..value], c[value..end], c[end..]);
  }

  lemma ParamsStep(q: Request, c: seq<byte>, p: Span, name: seq<byte>, value: seq<byte>, rest: seq<byte>)
    requires c != [] && FirstPair(c) == Some(p)
    requires name == c[p.name..p.value] && value == c[p.value..p.end] && rest == c[p.end..]
    ensures DecodeParams(q, c) == DecodeParams(q[name := Str(value)], rest)
  {
  }

  /** fcgi_decode_params. */
  method Params(req: Request, c: seq<byte>) returns (q: Request, error: Option<Error>)
    ensures (q, error) == DecodeParams(req, c)
  {
    q, error := req, None;
    var cp := 0;
    while cp < |c|
      invariant 0 <= cp <= |c|
      invariant DecodeParams(q, c[cp..]) == DecodeParams(req, c)
      decreases |c| - cp
    {
      var ok, name, value, end := ReadPair(c, cp);
      if !ok {
        return q, Some(BadContent);
      }
      TakePair(q, c, cp, name, value, end);
      q := q[c[name..value] := Str(c[value..end])];
      cp := end;
    }
    assert c[cp..] == [];
  }

  class Channel {
    var requests: Requests

    constructor ()
      ensures requests == map[]
    {
      requests := map[];
    }

    /** fcgi_decode_record on a complete record. */
    method Record(r: Record, ready: Option<nat>) returns (ready': Option<nat>)
      modifies this
      ensures (requests, ready') == DecodeRecord(old(requests), ready, r)
    {
      var req := if r.id in requests then requests[r.id] else Newcomer(r.id);
      var error: Option<Error>, isReady := None, false;
      if r.version != VERSION {
        error := Some(BadVersion);
      } else if r.kind == BEGIN_REQUEST {
        if |r.content| != 8 {
          error := Some(BadContent);
        } else if Be16(r.content[0], r.content[1]) != RESPONDER {
          error := Some(BadRole);
        } else {
          req := req[KEY_KEEP_CONN := Flag(Odd(r.content[2]))];
        }
      } else if r.kind == ABORT_REQUEST {
      } else if r.kind == PARAMS {
        if r.content != [] {
          req, error := Params(req, r.content);
        }
      } else if r.kind == STDIN {
        if r.content != [] {
          req := DecodeStdin(req, r.content);
        } else {
          isReady := true;
        }
      } else {
        error := Some(BadType);
      }
      if error.Some? {
        req := req[KEY_ERROR := Message(error.value)];
        isReady := true;
      }
      ready' := ready;
      if isReady {
        req := SetReady(req, ready);
        ready' := Some(r.id);
      }
      requests := requests[r.id := req];
    }

    /** fcgi_decode on a memory buffer: complete records are consumed, the rest moves to the front. */
    method Decode(mb: Membuf) returns (ready: Option<nat>)
      requires mb.Valid()
      modifies this, mb, mb.data
      ensures mb.Valid()
      ensures (requests, ready, mb.Contents()) == FcgiDecode.Decode(old(requests), None, old(mb.Contents()))
    {
      ghost var d := mb.Contents();
      ready := None;
      var cp := 0;
      var record := Peek(mb, cp);
      while record.Some?
        invariant mb.Valid() && mb.data == old(mb.data) && mb.Contents() == d && cp <= |d| == mb.offset
        invariant record == Front(d[cp..])
        invariant FcgiDecode.Decode(requests, ready, d[cp..]) == FcgiDecode.Decode(old(requests), None, d)
        modifies this
        decreases |d| - cp
      {
        ghost var rest := d[cp..];
        ready := Record(record.value, ready);
        cp := cp + HEADER_LEN + |record.value.content| + |record.value.padding|;
        assert rest[RecordLen(rest)..] == d[cp..];
        record := Peek(mb, cp);
      }
      mb.ReadNext(cp);
    }

    /** The record at `cp`, if all of it is there. */
    method Peek(mb: Membuf, cp: nat) returns (r: Option<Record>)
      requires mb.Valid() && cp <= mb.offset
      ensures r == Front(mb.Contents()[cp..])
    {
      var d := mb.data[cp..mb.offset];
      assert d == mb.Contents()[cp..];
      r := Front(d);
    }
  }
}
