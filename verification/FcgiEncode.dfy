/**
 fcgi_encode of src/isa/fcgi/sys_fcgi.c: what one call does to the bytes of the output buffer, what that
 means in records, and what every run of calls amounts to for each request.
 */
module FcgiEncode {
  import opened Bytes
  import opened FcgiRecord

  const END_LEN := 8   // FCGI_END_REQUEST_LEN
  const END_OFFSET := 12

  function Zeros(n: nat): (z: seq<byte>)
    ensures |z| == n && forall i :: 0 <= i < n ==> z[i] == 0
  {
    seq(n, _ => 0)
  }

  /** A multiple of eight, by counting; see EightIsMultiple. */
  predicate Eight(n: nat) { n == 0 || (n >= 8 && Eight(n - 8)) }

  lemma {:induction false} EightIsMultiple(n: nat)
    ensures Eight(n) <==> n % 8 == 0
  {
    if n >= 8 { EightIsMultiple(n - 8); }
  }

  lemma {:induction false} EightSum(a: nat, b: nat)
    requires Eight(a) && Eight(b)
    ensures Eight(a + b)
  {
    if a >= 8 { EightSum(a - 8, b); }
  }

  /** What fills `n` bytes up to a multiple of eight. */
  function Padding(n: nat): (p: nat)
    ensures p < 8
  {
    if n == 0 then 0 else if n <= 8 then 8 - n else Padding(n - 8)
  }

  lemma {:induction false} PaddingFills(n: nat)
    ensures Eight(n + Padding(n))
    ensures Padding(n) == if n % 8 == 0 then 0 else 8 - n % 8
  {
    if n > 8 { PaddingFills(n - 8); }
    assert Eight(8);
  }

  /** (unsigned char) (id >> 8) and (unsigned char) id are the bytes of the id's low 16 bits. */
  function Id16(id: nat): (r: nat)
    ensures r <= 0xFFFF
  {
    if id <= 0xFFFF then id else Id16(id - 0x1_0000)
  }

  lemma {:induction false} Id16IsLow(id: nat)
    ensures Id16(id) == id % 0x1_0000
  {
    if id > 0xFFFF { Id16IsLow(id - 0x1_0000); }
  }

  /** A record as fcgi_encode writes it. */
  function Written(kind: byte, id: nat, content: seq<byte>, padding: nat): Record {
    Record(VERSION, kind, Id16(id), content, Zeros(padding), 0)
  }

  /** A record of its own for the data of one call. */
  function Fresh(id: nat, s: seq<byte>): Record {
    Written(STDOUT, id, s, Padding(HEADER_LEN + |s|))
  }

  /** The offset a data call returns when `r` is the last record: from its length field to its end. */
  function OffsetOf(r: Record): nat { 4 + |r.content| + |r.padding| }

  // ---------------------------------------------------------------- bytes

  /** The offset given for the previous record points at length fields in the buffer, with the padding after them. */
  ghost predicate Readable(out: seq<byte>, prev: nat) {
    prev == 0 || (3 <= prev && prev + 2 <= |out| && out[|out| - prev + 2] as int + 3 <= prev)
  }

  /** The two bytes before the offset are this request's id, and the content has room. */
  predicate Joins(out: seq<byte>, id: nat, prev: nat, len: nat)
    requires Readable(out, prev)
  {
    var at := |out| - prev;
    len > 0 && prev != 0 && out[at - 1] == Lo(Id16(id)) && out[at - 2] == Hi(Id16(id))
    && Be16(out[at], out[at + 1]) + len <= MAX_CONTENT
  }

  /** The padding after `len` more bytes, `was` bytes of padding being overwritten first. */
  function PaddingAfter(was: nat, len: nat): (p: nat)
    ensures len + p >= was && (was < 8 ==> p < 8) && (was < 256 ==> p < 256)
  {
    if len <= was then was - len else Padding(len - was)
  }

  /** The length and padding fields stored at `at`. */
  function Patched(d: seq<byte>, at: nat, len: nat, pad: nat): (r: seq<byte>)
    requires at + 2 < |d| && len <= 0xFFFF && pad < 256
    ensures |r| == |d|
  {
    d[at := Hi(len)][at + 1 := Lo(len)][at + 2 := pad]
  }

  /** `s` written over the padding of the last record, whose length and padding fields are at |out| - prev. */
  function Extended(out: seq<byte>, prev: nat, s: seq<byte>): (r: seq<byte>)
    requires Readable(out, prev) && prev != 0 && Be16(out[|out| - prev], out[|out| - prev + 1]) + |s| <= MAX_CONTENT
  {
    var at, n := |out| - prev, |out|;
    var was := out[at + 2] as int;
    var len := Be16(out[at], out[at + 1]) + |s|;
    var pad := PaddingAfter(was, |s|);
    Patched(out[..n - was] + s + Zeros(pad), at, len, pad)
  }

  /** The buffer after a call, and the offset returned. */
  function Step(out: seq<byte>, id: nat, prev: nat, s: seq<byte>): (r: (seq<byte>, nat))
    requires Readable(out, prev) && |s| <= MAX_CONTENT
  {
    if s == [] then
      (out + Encoded(Written(STDOUT, id, [], 0)) + Encoded(Written(END_REQUEST, id, Zeros(END_LEN), 0)), END_OFFSET)
    else if Joins(out, id, prev, |s|) then
      var r := Extended(out, prev, s);
      (r, prev + |r| - |out|)
    else
      (out + Encoded(Fresh(id, s)), OffsetOf(Fresh(id, s)))
  }

  // ---------------------------------------------------------------- records

  /** Records as fcgi_encode leaves them. */
  ghost predicate Tidy(r: Record) {
    && Fits(r) && r.version == VERSION && r.reserved == 0 && |r.padding| < 8 && r.padding == Zeros(|r.padding|)
    && Eight(HEADER_LEN + |r.content| + |r.padding|)
  }

  ghost predicate AllTidy(rs: seq<Record>) { forall i :: 0 <= i < |rs| ==> Tidy(rs[i]) }

  /** The last record takes the data up. */
  predicate Takes(rs: seq<Record>, chained: bool, id: nat, len: nat) {
    chained && rs != [] && rs[|rs| - 1].id == Id16(id) && |rs[|rs| - 1].content| + len <= MAX_CONTENT
  }

  /** What a call with data does to the records; `chained` if the previous offset is given. */
  function Sent(rs: seq<Record>, chained: bool, id: nat, s: seq<byte>): (r: seq<Record>)
    requires 0 < |s| <= MAX_CONTENT
    ensures r != []
  {
    if Takes(rs, chained, id, |s|) then
      rs[..|rs| - 1] + [Longer(rs[|rs| - 1], s)]
    else
      rs + [Fresh(id, s)]
  }

  /** What a call without data does: the output ends, and so does the request (sections 5.3 and 5.5). */
  function Ended(rs: seq<Record>, id: nat): seq<Record> {
    rs + [Written(STDOUT, id, [], 0), Written(END_REQUEST, id, Zeros(END_LEN), 0)]
  }

  /** `prev` is 0, or what the preceding data call returned. */
  ghost predicate Protocol(rs: seq<Record>, prev: nat) {
    prev != 0 ==> rs != [] && rs[|rs| - 1].kind == STDOUT && prev == OffsetOf(rs[|rs| - 1])
  }

  lemma WrittenTidy(kind: byte, id: nat, s: seq<byte>, pad: nat)
    requires |s| <= MAX_CONTENT && pad < 8 && Eight(HEADER_LEN + |s| + pad)
    ensures Tidy(Written(kind, id, s, pad))
  {
  }

  /** `last` with `s` appended and its padding renewed. */
  function Longer(last: Record, s: seq<byte>): Record {
    last.(content := last.content + s, padding := Zeros(PaddingAfter(|last.padding|, |s|)))
  }

  lemma LongerTidy(last: Record, s: seq<byte>)
    requires Tidy(last) && |last.content| + |s| <= MAX_CONTENT
    ensures Tidy(Longer(last, s))
  {
    var was, more := |last.padding|, |s| - |last.padding|;
    if more > 0 {
      PaddingFills(more);
      EightSum(HEADER_LEN + |last.content| + was, more + Padding(more));
    }
  }

  lemma FreshTidy(id: nat, s: seq<byte>)
    requires |s| <= MAX_CONTENT
    ensures Tidy(Fresh(id, s))
  {
    PaddingFills(HEADER_LEN + |s|);
    WrittenTidy(STDOUT, id, s, Padding(HEADER_LEN + |s|));
  }

  lemma SentTidy(rs: seq<Record>, chained: bool, id: nat, s: seq<byte>)
    requires AllTidy(rs) && 0 < |s| <= MAX_CONTENT
    ensures AllTidy(Sent(rs, chained, id, s))
  {
    if Takes(rs, chained, id, |s|) {
      LongerTidy(rs[|rs| - 1], s);
    } else {
      FreshTidy(id, s);
    }
  }

  lemma SameIdBytes(a: nat, id: nat)
    requires a <= 0xFFFF
    ensures Hi(a) == Hi(Id16(id)) && Lo(a) == Lo(Id16(id)) <==> a == Id16(id)
  {
    Be16Inverts(a);
    Be16Inverts(Id16(id));
  }

  /** The fields that the offset of the last record leads to. */
  lemma LastHeader(pre: seq<byte>, last: Record)
    requires Tidy(last)
    ensures var out, prev := pre + Encoded(last), OffsetOf(last);
            var at := |out| - prev;
            && Readable(out, prev) && at == |pre| + 4
            && out[at - 2] == Hi(last.id) && out[at - 1] == Lo(last.id)
            && Be16(out[at], out[at + 1]) == |last.content| && out[at + 2] as int == |last.padding|
  {
    var out := pre + Encoded(last);
    var h := Header(last);
    assert forall i :: 0 <= i < HEADER_LEN ==> out[|pre| + i] == h[i];
    assert out[|pre| + 2] == h[2] && out[|pre| + 3] == h[3] && out[|pre| + 4] == h[4] && out[|pre| + 5] == h[5];
    assert out[|pre| + 6] == h[6];
    Be16Inverts(|last.content|);
  }

  /** The code's test on the bytes is a test on the last record. */
  lemma JoinsIff(pre: seq<byte>, last: Record, id: nat, len: nat)
    requires Tidy(last)
    ensures Readable(pre + Encoded(last), OffsetOf(last))
    ensures Joins(pre + Encoded(last), id, OffsetOf(last), len)
       <==> len > 0 && last.id == Id16(id) && |last.content| + len <= MAX_CONTENT
  {
    LastHeader(pre, last);
    SameIdBytes(last.id, id);
  }

  /** Writing over the padding and the header fields makes the longer record. */
  lemma ExtendedIsLonger(pre: seq<byte>, last: Record, s: seq<byte>)
    requires Tidy(last) && |last.content| + |s| <= MAX_CONTENT
    ensures Readable(pre + Encoded(last), OffsetOf(last)) && Fits(Longer(last, s)) && OffsetOf(last) != 0
    ensures var out, at := pre + Encoded(last), |pre| + 4;
            at == |out| - OffsetOf(last) && Be16(out[at], out[at + 1]) + |s| <= MAX_CONTENT
    ensures Extended(pre + Encoded(last), OffsetOf(last), s) == pre + Encoded(Longer(last, s))
  {
    LastHeader(pre, last);
    LongerTidy(last, s);
    var x := PaddedOver(pre, last, s);
    HeaderRewritten(pre, last, s, |last.content| + |s|, PaddingAfter(|last.padding|, |s|), x);
    ExtendedWith(pre + Encoded(last), OffsetOf(last), s, |pre| + 4, |last.padding|, |last.content| + |s|, x);
  }

  lemma PaddedOver(pre: seq<byte>, last: Record, s: seq<byte>) returns (x: seq<byte>)
    requires Tidy(last)
    ensures var out, z := pre + Encoded(last), Zeros(PaddingAfter(|last.padding|, |s|));
            |out| >= |last.padding| && x == out[..|out| - |last.padding|] + s + z
    ensures x == pre + Header(last) + (last.content + s + Zeros(PaddingAfter(|last.padding|, |s|)))
  {
    var out, z := pre + Encoded(last), Zeros(PaddingAfter(|last.padding|, |s|));
    Overwritten(pre, Header(last), last.content, last.padding, s, z);
    x := out[..|out| - |last.padding|] + s + z;
  }

  lemma ExtendedWith(out: seq<byte>, prev: nat, s: seq<byte>, at: nat, was: nat, len: nat, x: seq<byte>)
    requires Readable(out, prev) && prev != 0 && at == |out| - prev && was == out[at + 2] as int && len <= MAX_CONTENT
    requires len == Be16(out[at], out[at + 1]) + |s| && x == out[..|out| - was] + s + Zeros(PaddingAfter(was, |s|))
    ensures at + 2 < |x| && Extended(out, prev, s) == Patched(x, at, len, PaddingAfter(was, |s|))
  {
  }

  lemma Overwritten(pre: seq<byte>, h: seq<byte>, c: seq<byte>, p: seq<byte>, s: seq<byte>, z: seq<byte>)
    ensures var out := pre + (h + c + p);
            out[..|out| - |p|] + s + z == pre + h + (c + s + z)
  {
    var out := pre + (h + c + p);
    assert out[..|out| - |p|] == pre + h + c;
  }

  lemma HeaderRewritten(pre: seq<byte>, last: Record, s: seq<byte>, len: nat, pad: nat, x: seq<byte>)
    requires Tidy(last) && Tidy(Longer(last, s)) && len == |last.content| + |s| && pad == PaddingAfter(|last.padding|, |s|) < 256 && len <= MAX_CONTENT
    requires x == pre + Header(last) + (last.content + s + Zeros(pad))
    ensures |pre| + 6 < |x| && Patched(x, |pre| + 4, len, pad) == pre + Encoded(Longer(last, s))
  {
    var longer := Longer(last, s);
    var h := Patched(Header(last), 4, len, pad);
    assert h == Header(longer);
    assert Encoded(longer) == h + (last.content + s + Zeros(pad));
    assert Patched(x, |pre| + 4, len, pad) == pre + h + (last.content + s + Zeros(pad));
  }

  /** Under the protocol the bytes after a call are the records after it. */
  lemma StepIsSent(rs: seq<Record>, prev: nat, id: nat, s: seq<byte>)
    requires AllTidy(rs) && Protocol(rs, prev) && |s| <= MAX_CONTENT
    ensures Readable(Stream(rs), prev)
    ensures s != [] ==>
              var r := Sent(rs, prev != 0, id, s);
              AllTidy(r) && Step(Stream(rs), id, prev, s) == (Stream(r), OffsetOf(r[|r| - 1])) && r[|r| - 1].kind == STDOUT
    ensures s == [] ==> AllTidy(Ended(rs, id)) && Step(Stream(rs), id, prev, s) == (Stream(Ended(rs, id)), END_OFFSET)
  {
    if prev != 0 {
      assert rs[|rs| - 1] in rs && rs == rs[..|rs| - 1] + [rs[|rs| - 1]];
      LastHeader(Stream(rs[..|rs| - 1]), rs[|rs| - 1]);
    }
    if s == [] {
      StepEnds(rs, id, prev);
    } else {
      SentTidy(rs, prev != 0, id, s);
      if prev != 0 {
        StepChained(rs[..|rs| - 1], rs[|rs| - 1], id, s);
      } else {
        StepFresh(rs, 0, id, s);
      }
    }
  }

  lemma StepEnds(rs: seq<Record>, id: nat, prev: nat)
    requires AllTidy(rs) && Readable(Stream(rs), prev)
    ensures AllTidy(Ended(rs, id)) && Step(Stream(rs), id, prev, []) == (Stream(Ended(rs, id)), END_OFFSET)
  {
    var a, b := Written(STDOUT, id, [], 0), Written(END_REQUEST, id, Zeros(END_LEN), 0);
    WrittenTidy(STDOUT, id, [], 0);
    WrittenTidy(END_REQUEST, id, Zeros(END_LEN), 0);
    StreamSnoc(rs, a);
    StreamSnoc(rs + [a], b);
    assert rs + [a] + [b] == Ended(rs, id);
  }

  lemma StepChained(init: seq<Record>, last: Record, id: nat, s: seq<byte>)
    requires AllTidy(init) && Tidy(last) && last.kind == STDOUT && 0 < |s| <= MAX_CONTENT
    ensures var rs := init + [last];
            var r := Sent(rs, true, id, s);
            && Readable(Stream(rs), OffsetOf(last))
            && AllTidy(r) && Step(Stream(rs), id, OffsetOf(last), s) == (Stream(r), OffsetOf(r[|r| - 1]))
            && r[|r| - 1].kind == STDOUT
  {
    var rs := init + [last];
    SentTidy(rs, true, id, s);
    StreamSnoc(init, last);
    LastHeader(Stream(init), last);
    if Takes(rs, true, id, |s|) {
      StepTaken(init, last, id, s);
    } else {
      StepFresh(rs, OffsetOf(last), id, s);
    }
  }

  lemma StepTaken(init: seq<Record>, last: Record, id: nat, s: seq<byte>)
    requires AllTidy(init) && Tidy(last) && 0 < |s| && Takes(init + [last], true, id, |s|)
    ensures Readable(Stream(init + [last]), OffsetOf(last)) && Tidy(Longer(last, s))
    ensures |s| <= MAX_CONTENT && Sent(init + [last], true, id, s) == init + [Longer(last, s)]
    ensures Step(Stream(init + [last]), id, OffsetOf(last), s)
            == (Stream(init + [Longer(last, s)]), OffsetOf(Longer(last, s)))
  {
    StreamSnoc(init, last);
    JoinsIff(Stream(init), last, id, |s|);
    LongerTidy(last, s);
    ExtendedIsLonger(Stream(init), last, s);
    StreamSnoc(init, Longer(last, s));
    assert (init + [last])[..|init|] == init;
  }

  /** A record of its own, because no offset is given or the last record cannot take the data up. */
  lemma StepFresh(rs: seq<Record>, prev: nat, id: nat, s: seq<byte>)
    requires AllTidy(rs) && 0 < |s| <= MAX_CONTENT && Readable(Stream(rs), prev)
    requires prev != 0 ==>
               && rs != [] && !Takes(rs, true, id, |s|) && prev == OffsetOf(rs[|rs| - 1])
               && Stream(rs) == Stream(rs[..|rs| - 1]) + Encoded(rs[|rs| - 1])
    ensures var r := Fresh(id, s);
            Tidy(r) && Step(Stream(rs), id, prev, s) == (Stream(rs + [r]), OffsetOf(r))
  {
    FreshTidy(id, s);
    NotJoined(rs, prev, id, |s|);
    StepApart(Stream(rs), id, prev, s);
    StreamSnoc(rs, Fresh(id, s));
  }

  lemma NotJoined(rs: seq<Record>, prev: nat, id: nat, len: nat)
    requires AllTidy(rs) && Readable(Stream(rs), prev)
    requires prev != 0 ==>
               && rs != [] && !Takes(rs, true, id, len) && prev == OffsetOf(rs[|rs| - 1])
               && Stream(rs) == Stream(rs[..|rs| - 1]) + Encoded(rs[|rs| - 1])
    ensures !Joins(Stream(rs), id, prev, len)
  {
    if prev != 0 {
      JoinsIff(Stream(rs[..|rs| - 1]), rs[|rs| - 1], id, len);
    }
  }

  lemma StepApart(out: seq<byte>, id: nat, prev: nat, s: seq<byte>)
    requires Readable(out, prev) && 0 < |s| <= MAX_CONTENT && !Joins(out, id, prev, |s|)
    ensures var r := Fresh(id, s);
            Step(out, id, prev, s) == (out + Encoded(r), OffsetOf(r))
  {
  }
}
