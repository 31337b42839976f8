/**
 The inter-VM pipe of src/thread/thread_pipe.c on values: byte buffers in a ring, a zero-size
 sentinel marking a wrap, growth by doubling.  `PutStep` is one pass of the loop of pipe_put and
 `GetStep` one pass of the loop of pipe_get, each a critical section.  Class `PipeQueue` of
 PipeQueue.dfy performs these steps on linked buffers.
 */
module PipeRing {
  import opened Bytes

  /** sizeof(struct pipe_buf) + sizeof(short) on a 64-bit host. */
  const EXTRA_SIZE: nat := 26
  const MIN_SIZE: nat := 4096
  const MAX_SIZE: nat := 0x8000_0000
  const UINT_MOD: nat := 0x1_0000_0000
  const MSG_LIMIT: nat := 514

  type Message = seq<byte>

  /** A message starts with its own size, which is never the sentinel 0. */
  ghost predicate IsMessage(m: Message) {
    2 <= |m| <= MSG_LIMIT && U16(m, 0) == |m|
  }

  ghost predicate AllMessages(q: seq<Message>) {
    forall i :: 0 <= i < |q| ==> IsMessage(q[i])
  }

  /** struct pipe_buf and the data area behind it; the area holds a sentinel even at offset `len`. */
  datatype Buf = Buf(begin: nat, end: nat, len: nat, data: seq<byte>) {
    predicate Wellformed() {
      MIN_SIZE - EXTRA_SIZE <= len && |data| == len + 2 && begin <= len && end <= len
    }

    predicate Wrapped() { end < begin }

    predicate Unused() { begin == 0 && end == 0 }

    function Room(): nat
      requires Wellformed()
    {
      if Wrapped() then begin - end else len - end
    }

    function Append(m: Message): (r: Buf)
      requires Wellformed() && end + |m| <= len
      ensures r.Wellformed()
    {
      Buf(begin, end + |m|, len, Splice(data, end, m))
    }

    function Wrap(): (r: Buf)
      requires Wellformed()
      ensures r.Wellformed()
    {
      Buf(begin, 0, len, Splice(data, end, [0, 0]))
    }

    /** Where pipe_get finds the next message: at the front when the sentinel stands at `begin`. */
    function ReadAt(): nat
      requires Wellformed()
    {
      if U16(data, begin) == 0 then 0 else begin
    }

    /** The bytes read there lie inside the buffer. */
    predicate Readable() {
      Wellformed() && ReadAt() + U16(data, ReadAt()) <= len
    }

    function Front(): Message
      requires Readable()
    {
      data[ReadAt()..ReadAt() + U16(data, ReadAt())]
    }

    predicate Drained()
      requires Readable()
    {
      ReadAt() + |Front()| == end
    }

    function DropFront(): (r: Buf)
      requires Readable()
      ensures r.Wellformed()
    {
      var b := ReadAt() + |Front()|;
      if b == end then Buf(0, 0, len, data)
      else if b == len then Buf(0, end, len, data)
      else Buf(b, end, len, data)
    }
  }

  /** struct pipe: the ring of buffers from rbuf on, wbuf being ring[w]. */
  datatype Pipe = Pipe(ring: seq<Buf>, w: nat, nmsg: nat, bufSize: nat, maxSize: nat) {
    /** The buffers are in order, whatever buf_size is. */
    predicate Formed() {
      w < |ring| && forall i :: 0 <= i < |ring| ==> ring[i].Wellformed()
    }

    predicate Wellformed() {
      Formed() && MIN_SIZE <= bufSize <= maxSize <= MAX_SIZE
    }

    predicate CanGrow() { 2 * bufSize % UINT_MOD <= maxSize }

    /** Index of wbuf->next_buf. */
    function NextW(): nat
      requires Formed()
    {
      if w + 1 == |ring| then 0 else w + 1
    }
  }

  /** The arguments pipe_new accepts. */
  predicate ValidSizes(maxSize: nat, minSize: nat) {
    minSize <= maxSize && MIN_SIZE <= minSize && maxSize <= MAX_SIZE
    && PowerOfTwo(maxSize / minSize)
  }

  predicate PowerOfTwo(n: nat) {
    n == 1 || (n > 1 && n % 2 == 0 && PowerOfTwo(n / 2))
  }

  function New(maxSize: nat, minSize: nat, area: seq<byte>): (p: Pipe)
    requires ValidSizes(maxSize, minSize) && |area| == minSize - EXTRA_SIZE + 2
    ensures p.Wellformed()
  {
    Pipe([Buf(0, 0, minSize - EXTRA_SIZE, area)], 0, 0, minSize, maxSize)
  }

  /** malloc either fails or returns an area with arbitrary contents. */
  predicate AllocFits(p: Pipe, alloc: Option<seq<byte>>) {
    alloc.Some? ==> |alloc.value| + EXTRA_SIZE == p.bufSize + 2
  }

  /** The message goes into the write buffer itself, behind `end` or after a wrap. */
  predicate StoresInPlace(b: Buf, m: Message)
    requires b.Wellformed()
  {
    |m| <= b.Room() || (!b.Wrapped() && b.begin > |m|)
  }

  function InPlace(b: Buf, m: Message): (r: Buf)
    requires b.Wellformed() && StoresInPlace(b, m)
    ensures r.Wellformed() && r.begin == b.begin && r.len == b.len
  {
    if |m| <= b.Room() then b.Append(m) else b.Wrap().Append(m)
  }

  /** The ring with a new buffer behind wbuf, which holds `m` and becomes wbuf. */
  function Grow(p: Pipe, m: Message, area: seq<byte>): (r: Pipe)
    requires p.Wellformed() && |m| <= MSG_LIMIT && AllocFits(p, Some(area))
    ensures r.Formed() && (p.bufSize < MAX_SIZE && p.CanGrow() ==> r.Wellformed())
  {
    var extra := Buf(0, 0, p.bufSize - EXTRA_SIZE, area).Append(m);
    p.(ring := p.ring[..p.w + 1] + [extra] + p.ring[p.w + 1..], w := p.w + 1,
       nmsg := p.nmsg + 1, bufSize := 2 * p.bufSize % UINT_MOD)
  }

  /** The write position moved to the unused next buffer, which holds `m`. */
  function MoveOn(p: Pipe, m: Message): (r: Pipe)
    requires p.Wellformed() && |m| <= MSG_LIMIT && p.ring[p.NextW()].Unused()
    ensures r.Wellformed()
  {
    var nx := p.NextW();
    p.(ring := p.ring[nx := p.ring[nx].Append(m)], w := nx, nmsg := p.nmsg + 1)
  }

  /** One pass of the loop of pipe_put: the new state and whether the message was stored (else wait). */
  function PutStep(p: Pipe, m: Message, alloc: Option<seq<byte>>): (r: (Pipe, bool))
    requires p.Wellformed() && |m| <= MSG_LIMIT && AllocFits(p, alloc)
    ensures !r.1 ==> r.0 == p
    ensures r.0.Formed() && (p.bufSize < MAX_SIZE ==> r.0.Wellformed())
  {
    var b := p.ring[p.w];
    if StoresInPlace(b, m) then
      (p.(ring := p.ring[p.w := InPlace(b, m)], nmsg := p.nmsg + 1), true)
    else if p.NextW() != p.w && p.ring[p.NextW()].Unused() then
      (MoveOn(p, m), true)
    else if p.CanGrow() && alloc.Some? then
      (Grow(p, m, alloc.value), true)
    else
      (p, false)
  }

  /** The read cursor is usable: what pipe_get assumes of the bytes it finds. */
  predicate GetSafe(p: Pipe) {
    p.Wellformed() && (p.nmsg > 0 ==> p.ring[0].Readable())
  }

  /** One pass of the loop of pipe_get: None means wait. */
  function GetStep(p: Pipe): (r: (Pipe, Option<Message>))
    requires GetSafe(p)
  {
    if p.nmsg == 0 then (p, None)
    else
      var b := p.ring[0];
      if b.Drained() && p.nmsg > 1 then
        (p.(ring := p.ring[1..] + [b.DropFront()], w := if p.w == 0 then |p.ring| - 1 else p.w - 1,
            nmsg := p.nmsg - 1), Some(b.Front()))
      else
        (p.(ring := p.ring[0 := b.DropFront()], nmsg := p.nmsg - 1), Some(b.Front()))
  }

  // ---------------------------------------------------------------- what a buffer represents

  ghost predicate Straight(b: Buf, q: seq<Message>) {
    && b.Wellformed() && b.begin <= b.end
    && b.data[b.begin..b.end] == Flat(q)
    && (q == [] ==> b.Unused())
  }

  /** `k` messages up to the sentinel at `s`, the others from offset 0. */
  ghost predicate WrappedAt(b: Buf, q: seq<Message>, k: nat, s: nat) {
    && b.Wellformed() && k < |q|
    && b.end <= b.begin <= s <= b.len
    && b.data[b.begin..s] == Flat(q[..k])
    && U16(b.data, s) == 0
    && b.data[..b.end] == Flat(q[k..])
  }

  /** Buffer `b` holds exactly the messages `q`, oldest first. */
  ghost predicate Holds(b: Buf, q: seq<Message>) {
    AllMessages(q) && (Straight(b, q) || exists k: nat, s: nat :: WrappedAt(b, q, k, s))
  }

  /** The pipe's contents, buffer by buffer along the arc from rbuf to wbuf. */
  ghost predicate Represents(p: Pipe, qs: seq<seq<Message>>) {
    && p.Wellformed() && |qs| == p.w + 1
    && (forall i :: 0 <= i <= p.w ==> Holds(p.ring[i], qs[i]))
    && (forall i :: 1 <= i <= p.w ==> p.ring[i].begin == 0)
    && (forall i :: p.w < i < |p.ring| ==> p.ring[i].Unused())
    && (p.w > 0 ==> forall i :: 0 <= i <= p.w ==> qs[i] != [])
    && p.nmsg == |Flat(qs)|
  }

  /**
   A wrapped write that fits its gap exactly leaves begin == end in a nonempty buffer, which the
   next pipe_put takes for an unwrapped one.  If it then stores in place, it writes over messages
   not yet read.
   */
  predicate Clobbers(p: Pipe, m: Message)
    requires p.Wellformed()
  {
    var b := p.ring[p.w];
    b.begin == b.end != 0 && StoresInPlace(b, m)
  }

  /** A new buffer is needed when buf_size is at 2^31, which doubles to 0. */
  predicate Overflows(p: Pipe, m: Message)
    requires p.Wellformed()
  {
    && p.bufSize == MAX_SIZE && !StoresInPlace(p.ring[p.w], m)
    && !(p.NextW() != p.w && p.ring[p.NextW()].Unused())
  }

  // ---------------------------------------------------------------- one buffer

  lemma FlatFirst(q: seq<Message>)
    requires AllMessages(q) && q != []
    ensures |Flat(q)| >= |q[0]| >= 2 && Flat(q)[..|q[0]|] == q[0]
    ensures Flat(q)[|q[0]|..] == Flat(q[1..])
    ensures U16(Flat(q), 0) == |q[0]|
  {
  }

  lemma {:induction false} FlatEmptyIff(q: seq<Message>)
    requires AllMessages(q)
    ensures q == [] <==> Flat(q) == []
    ensures |Flat(q)| >= 2 * |q|
  {
    if q != [] { FlatEmptyIff(q[1..]); }
  }

  lemma AppendStraight(b: Buf, q: seq<Message>, m: Message)
    requires Straight(b, q) && IsMessage(m) && b.end + |m| <= b.len
    ensures Straight(b.Append(m), q + [m])
  {
    var c := b.Append(m);
    SpliceKeeps(b.data, b.end, m);
    FlatSnoc(q, m);
    assert c.data[c.begin..c.end] == c.data[c.begin..b.end] + c.data[b.end..c.end];
  }

  lemma AppendWrapped(b: Buf, q: seq<Message>, m: Message, k: nat, s: nat)
    requires WrappedAt(b, q, k, s) && IsMessage(m) && |m| <= b.begin - b.end
    ensures WrappedAt(b.Append(m), q + [m], k, s)
  {
    var c := b.Append(m);
    SpliceKeeps(b.data, b.end, m);
    var r := q + [m];
    assert r[..k] == q[..k] && r[k..] == q[k..] + [m];
    FlatSnoc(q[k..], m);
    assert c.data[..c.end] == c.data[0..b.end] + c.data[b.end..c.end];
    U16Slice(c.data, b.data, s);
  }

  lemma U16Slice(c: seq<byte>, d: seq<byte>, s: nat)
    requires s + 2 <= |c| && s + 2 <= |d| && c[s..s + 2] == d[s..s + 2]
    ensures U16(c, s) == U16(d, s)
  {
    assert c[s] == c[s..s + 2][0] && c[s + 1] == c[s..s + 2][1];
    assert d[s] == d[s..s + 2][0] && d[s + 1] == d[s..s + 2][1];
  }

  lemma AppendHolds(b: Buf, q: seq<Message>, m: Message)
    requires Holds(b, q) && IsMessage(m) && |m| <= b.Room()
    requires b.begin == b.end ==> b.Unused()
    ensures Holds(b.Append(m), q + [m])
  {
    if Straight(b, q) {
      AppendStraight(b, q, m);
    } else {
      var k: nat, s: nat :| WrappedAt(b, q, k, s);
      FlatEmptyIff(q[k..]);
      AppendWrapped(b, q, m, k, s);
    }
  }

  lemma WrapHolds(b: Buf, q: seq<Message>, m: Message)
    requires Holds(b, q) && IsMessage(m) && !b.Wrapped() && b.begin > |m|
    requires b.begin == b.end ==> b.Unused()
    ensures Holds(b.Wrap().Append(m), q + [m])
  {
    FlatEmptyIff(q);
    assert Straight(b, q);
    var v := b.Wrap();
    var c := v.Append(m);
    SpliceKeeps(b.data, b.end, [0, 0]);
    SpliceKeeps(v.data, v.end, m);
    var r := q + [m];
    assert r[..|q|] == q && r[|q|..] == [m];
    FlatSingle(m);
    assert c.data[b.begin..b.end] == v.data[b.begin..b.end] == b.data[b.begin..b.end];
    assert c.data[b.end..b.end + 2] == v.data[b.end..b.end + 2] == [0, 0];
    assert c.data[b.end] == c.data[b.end..b.end + 2][0] && c.data[b.end + 1] == c.data[b.end..b.end + 2][1];
    assert c.data[..c.end] == c.data[0..|m|] == m;
    assert WrappedAt(c, r, |q|, b.end);
  }

  lemma InPlaceHolds(b: Buf, q: seq<Message>, m: Message)
    requires Holds(b, q) && IsMessage(m) && StoresInPlace(b, m)
    requires b.begin == b.end ==> b.Unused()
    ensures Holds(InPlace(b, m), q + [m])
  {
    if |m| <= b.Room() {
      AppendHolds(b, q, m);
    } else {
      WrapHolds(b, q, m);
    }
  }

  lemma FreshHolds(b: Buf, m: Message)
    requires b.Wellformed() && b.Unused() && IsMessage(m)
    ensures Holds(b.Append(m), [m])
  {
    FlatSingle(m);
    SpliceKeeps(b.data, b.end, m);
    assert Straight(b.Append(m), [m]);
  }

  /** Reading a nonempty buffer finds its oldest message whole and leaves the others. */
  lemma FrontHolds(b: Buf, q: seq<Message>)
    requires Holds(b, q) && q != []
    ensures b.Readable() && b.Front() == q[0]
    ensures b.Drained() <==> |q| == 1
    ensures Holds(b.DropFront(), q[1..])
    ensures b.begin == 0 ==> b.DropFront().begin == 0 || !b.Drained()
  {
    FlatFirst(q);
    FlatEmptyIff(q[1..]);
    if Straight(b, q) {
      ReadStraight(b, q);
    } else {
      var k: nat, s: nat :| WrappedAt(b, q, k, s);
      if k == 0 {
        ReadSentinel(b, q, s);
      } else {
        ReadBeforeSentinel(b, q, k, s);
      }
    }
  }

  lemma ReadStraight(b: Buf, q: seq<Message>)
    requires AllMessages(q) && Straight(b, q) && q != []
    ensures b.Readable() && b.Front() == q[0]
    ensures b.Drained() <==> |q| == 1
    ensures Holds(b.DropFront(), q[1..])
  {
    FlatFirst(q);
    FlatEmptyIff(q[1..]);
    var f := b.data[b.begin..b.end];
    assert f[0] == b.data[b.begin] && f[1] == b.data[b.begin + 1];
    var n := |q[0]|;
    assert b.data[b.begin..b.begin + n] == f[..n];
    assert b.data[b.begin + n..b.end] == f[n..];
    assert Straight(b.DropFront(), q[1..]);
  }

  lemma ReadSentinel(b: Buf, q: seq<Message>, s: nat)
    requires AllMessages(q) && WrappedAt(b, q, 0, s) && q != []
    ensures b.Readable() && b.Front() == q[0]
    ensures b.Drained() <==> |q| == 1
    ensures Holds(b.DropFront(), q[1..])
  {
    assert q[0..] == q;
    FlatFirst(q);
    FlatEmptyIff(q[1..]);
    var f := b.data[..b.end];
    assert q[..0] == [];
    assert b.begin == s;
    assert f[0] == b.data[0] && f[1] == b.data[1];
    var n := |q[0]|;
    assert b.data[0..n] == f[..n];
    assert b.data[n..b.end] == f[n..];
    assert Straight(b.DropFront(), q[1..]);
  }

  /** The first of the messages before the sentinel. */
  lemma FrontBeforeSentinel(b: Buf, q: seq<Message>, k: nat, s: nat)
    requires AllMessages(q) && WrappedAt(b, q, k, s) && k > 0
    ensures b.Readable() && b.Front() == q[0]
    ensures !b.Drained() && |q| > 1 && b.ReadAt() == b.begin
    ensures b.begin + |q[0]| <= s && b.data[b.begin + |q[0]|..s] == Flat(q[1..k])
  {
    var a := q[..k];
    FlatFirst(a);
    FlatEmptyIff(q[k..]);
    var f := b.data[b.begin..s];
    assert f[0] == b.data[b.begin] && f[1] == b.data[b.begin + 1];
    var n := |q[0]|;
    assert a[0] == q[0] && a[1..] == q[1..k];
    assert b.data[b.begin..b.begin + n] == f[..n];
    assert b.data[b.begin + n..s] == f[n..];
  }

  lemma ReadBeforeSentinel(b: Buf, q: seq<Message>, k: nat, s: nat)
    requires AllMessages(q) && WrappedAt(b, q, k, s) && k > 0
    ensures b.Readable() && b.Front() == q[0]
    ensures !b.Drained() && |q| > 1
    ensures Holds(b.DropFront(), q[1..])
  {
    FrontBeforeSentinel(b, q, k, s);
    FlatEmptyIff(q[k..]);
    var c := b.DropFront();
    assert AllMessages(q[1..]);
    assert q[1..][..k - 1] == q[1..k] && q[1..][k - 1..] == q[k..];
    if b.begin + |q[0]| == b.len {
      FlatEmptyIff(q[1..k]);
      assert q[1..] == q[k..];
      assert c.data[0..c.end] == b.data[..b.end];
      assert Straight(c, q[1..]);
    } else {
      assert WrappedAt(c, q[1..], k - 1, s);
    }
  }
}
