/** Records of the FastCGI Specification 1.0, section 3.3: a header of eight bytes, content and padding. */
module FcgiRecord {
  import opened Bytes

  const VERSION: byte := 1
  const HEADER_LEN := 8
  const MAX_CONTENT := 0xFFFF
  const BEGIN_REQUEST: byte := 1
  const ABORT_REQUEST: byte := 2
  const END_REQUEST: byte := 3
  const PARAMS: byte := 4
  const STDIN: byte := 5
  const STDOUT: byte := 6

  datatype Record = Record(version: byte, kind: byte, id: nat, content: seq<byte>, padding: seq<byte>, reserved: byte)

  ghost predicate Fits(r: Record) {
    r.id <= 0xFFFF && |r.content| <= MAX_CONTENT && |r.padding| <= 255
  }

  ghost predicate AllFit(rs: seq<Record>) {
    forall i :: 0 <= i < |rs| ==> Fits(rs[i])
  }

  /** The two bytes of a 16-bit number by counting; see BytesOf16. */
  function Hi(n: nat): byte
    requires n <= 0xFFFF
    ensures Hi(n) <= n && 256 * Hi(n) as int <= n
  {
    if n < 256 then 0 else
      assert 256 * Hi(n - 256) as int <= n - 256;
      Hi(n - 256) + 1
  }

  function Lo(n: nat): byte {
    if n < 256 then n else Lo(n - 256)
  }

  /** They are n >> 8 and n & 0xFF. */
  lemma {:induction false} BytesOf16(n: nat)
    requires n <= 0xFFFF
    ensures Hi(n) as int == n / 256 && Lo(n) as int == n % 256
  {
    if n >= 256 {
      BytesOf16(n - 256);
      assert n == (n - 256) + 256 && n / 256 == (n - 256) / 256 + 1 && n % 256 == (n - 256) % 256;
    }
  }

  /** The 16-bit number in network order. */
  function Be16(hi: byte, lo: byte): (r: nat)
    ensures r <= 0xFFFF
  {
    256 * hi as int + lo as int
  }

  lemma {:induction false} Be16Inverts(n: nat)
    requires n <= 0xFFFF
    ensures Be16(Hi(n), Lo(n)) == n
  {
    if n >= 256 { Be16Inverts(n - 256); }
  }

  function Header(r: Record): (h: seq<byte>)
    requires Fits(r)
    ensures |h| == HEADER_LEN
  {
    [r.version, r.kind, Hi(r.id), Lo(r.id), Hi(|r.content|), Lo(|r.content|), |r.padding|, r.reserved]
  }

  function Encoded(r: Record): (d: seq<byte>)
    requires Fits(r)
    ensures |d| == HEADER_LEN + |r.content| + |r.padding|
  {
    Header(r) + r.content + r.padding
  }

  /** The length of the record at the front, if its header is there. */
  function RecordLen(d: seq<byte>): (n: nat)
    requires |d| >= HEADER_LEN
    ensures n >= HEADER_LEN
  {
    HEADER_LEN + Be16(d[4], d[5]) + d[6] as int
  }

  /** The record at the front of `d`; None until all of it is there. */
  function Front(d: seq<byte>): (r: Option<Record>)
    ensures r.Some? ==> Fits(r.value) && |d| >= HEADER_LEN && |Encoded(r.value)| == RecordLen(d) <= |d|
  {
    if |d| < HEADER_LEN || RecordLen(d) > |d| then None
    else
      var n := Be16(d[4], d[5]);
      Some(Record(d[0], d[1], Be16(d[2], d[3]), d[HEADER_LEN..HEADER_LEN + n], d[HEADER_LEN + n..RecordLen(d)], d[7]))
  }

  lemma HeadersParse(r: Record, d: seq<byte>)
    requires Fits(r) && |d| >= HEADER_LEN && d[..HEADER_LEN] == Header(r)
    ensures RecordLen(d) == |Encoded(r)| && Be16(d[2], d[3]) == r.id && Be16(d[4], d[5]) == |r.content|
    ensures d[0] == r.version && d[1] == r.kind && d[7] == r.reserved
  {
    Be16Inverts(r.id);
    Be16Inverts(|r.content|);
    var h := d[..HEADER_LEN];
    assert d[0] == h[0] && d[1] == h[1] && d[2] == h[2] && d[3] == h[3];
    assert d[4] == h[4] && d[5] == h[5] && d[6] == h[6] && d[7] == h[7];
  }

  lemma EncodedHeader(r: Record, rest: seq<byte>)
    requires Fits(r)
    ensures (Encoded(r) + rest)[..HEADER_LEN] == Header(r)
  {
  }

  /** What is written as a record reads as that record, whatever follows. */
  lemma FrontOfEncoded(r: Record, rest: seq<byte>)
    requires Fits(r)
    ensures Front(Encoded(r) + rest) == Some(r)
    ensures (Encoded(r) + rest)[|Encoded(r)|..] == rest
  {
    var d := Encoded(r) + rest;
    EncodedHeader(r, rest);
    HeadersParse(r, d);
    var n := |r.content|;
    assert d[HEADER_LEN..HEADER_LEN + n] == r.content;
    assert d[HEADER_LEN + n..RecordLen(d)] == r.padding;
  }

  /** A record that is complete stays the same when more bytes arrive. */
  lemma FrontStays(d: seq<byte>, more: seq<byte>)
    requires Front(d).Some?
    ensures Front(d + more) == Front(d) && (d + more)[RecordLen(d)..] == d[RecordLen(d)..] + more
  {
    var n := Be16(d[4], d[5]);
    assert (d + more)[HEADER_LEN..HEADER_LEN + n] == d[HEADER_LEN..HEADER_LEN + n];
    assert (d + more)[HEADER_LEN + n..RecordLen(d)] == d[HEADER_LEN + n..RecordLen(d)];
  }

  /** The records one after another. */
  ghost function Stream(rs: seq<Record>): (d: seq<byte>)
    requires AllFit(rs)
  {
    if rs == [] then [] else Stream(rs[..|rs| - 1]) + Encoded(rs[|rs| - 1])
  }

  /** The records a reader finds, and the bytes left over. */
  function Parse(d: seq<byte>): (r: (seq<Record>, seq<byte>))
    decreases |d|
  {
    match Front(d)
    case None => ([], d)
    case Some(r) =>
      var (rs, tail) := Parse(d[RecordLen(d)..]);
      ([r] + rs, tail)
  }

  lemma Regroup<T>(a: seq<T>, b: seq<T>, c: seq<T>)
    ensures a + b + c == a + (b + c)
  {
  }

  lemma ParseStep(r: Record, rest: seq<byte>)
    requires Fits(r)
    ensures Parse(Encoded(r) + rest) == ([r] + Parse(rest).0, Parse(rest).1)
  {
    FrontOfEncoded(r, rest);
    EncodedHeader(r, rest);
    HeadersParse(r, Encoded(r) + rest);
  }

  lemma StreamSnoc(rs: seq<Record>, last: Record)
    requires Fits(last) && AllFit(rs)
    ensures Stream(rs + [last]) == Stream(rs) + Encoded(last)
  {
    assert (rs + [last])[..|rs|] == rs;
  }

  /** A stream of records reads as these records, with nothing left over. */
  lemma {:induction false} ParseOfStream(rs: seq<Record>, rest: seq<byte>)
    requires AllFit(rs)
    ensures Parse(Stream(rs) + rest) == (rs + Parse(rest).0, Parse(rest).1)
    decreases |rs|
  {
    if rs == [] {
      NoRecords(rest);
    } else {
      var init, last := rs[..|rs| - 1], rs[|rs| - 1];
      ParseOfStream(init, Encoded(last) + rest);
      assert rs == init + [last];
      ParseSnoc(init, last, rest);
    }
  }

  lemma NoRecords(rest: seq<byte>)
    ensures Parse(Stream([]) + rest) == ([] + Parse(rest).0, Parse(rest).1)
  {
    assert Stream([]) + rest == rest;
    NothingBefore(Parse(rest).0);
  }

  lemma NothingBefore(rs: seq<Record>)
    ensures [] + rs == rs
  {
  }

  lemma ParseSnoc(rs: seq<Record>, last: Record, rest: seq<byte>)
    requires Fits(last) && AllFit(rs)
    requires Parse(Stream(rs) + (Encoded(last) + rest))
             == (rs + Parse(Encoded(last) + rest).0, Parse(Encoded(last) + rest).1)
    ensures Parse(Stream(rs + [last]) + rest) == (rs + [last] + Parse(rest).0, Parse(rest).1)
  {
    StreamSnoc(rs, last);
    ParseStep(last, rest);
    Regroup(Stream(rs), Encoded(last), rest);
    Regroup(rs, [last], Parse(rest).0);
  }

  lemma StreamParses(rs: seq<Record>)
    requires AllFit(rs)
    ensures Parse(Stream(rs)) == (rs, [])
  {
    ParseOfStream(rs, []);
    assert Stream(rs) + [] == Stream(rs);
    assert Parse([]).0 == [] && rs + [] == rs;
  }
}
