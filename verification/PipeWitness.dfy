/**
 Runs from a new pipe that lead to a clobbering put and to one that overflows buf_size: both guards of
 PipeFifo are needed.
 */
module PipeWitness {
  import opened Bytes
  import opened Powers
  import opened PipeRing
  import opened PipeFifo

  const EMPTY: Message := Sized(2)
  const LARGE: Message := Sized(MSG_LIMIT)

  function Sized(n: nat): (m: Message)
    requires 2 <= n <= MSG_LIMIT
    ensures |m| == n && IsMessage(m)
  {
    [n % 256, n / 256] + seq(n - 2, _ => 0)
  }

  datatype Trace = Trace(ps: seq<Pipe>, ops: seq<Op>, outs: seq<Out>) {
    /** Step `i` is one of the code that the guards allow. */
    ghost predicate Fine(i: nat) {
      && i < |ops| && i + 1 < |ps| && i < |outs|
      && Step(ps[i], ops[i], outs[i], ps[i + 1]) && Allowed(ps[i], ops[i], outs[i])
    }

    ghost predicate Ok() {
      |ps| == |ops| + 1 && |outs| == |ops| && forall i: nat {:trigger Fine(i)} :: i < |ops| ==> Fine(i)
    }

    lemma IsGuardedRun()
      requires Ok()
      ensures IsRun(ps, ops, outs) && Guarded(ps, ops, outs)
    {
      forall i: nat | i < |ops|
        ensures Step(ps[i], ops[i], outs[i], ps[i + 1]) && Allowed(ps[i], ops[i], outs[i])
      {
        assert Fine(i);
      }
    }

    function Last(): Pipe
      requires |ps| == |ops| + 1
    {
      ps[|ops|]
    }
  }

  /** A pipe of one 4096-byte buffer with these cursors. */
  ghost predicate Shape(p: Pipe, begin: nat, end: nat) {
    && |p.ring| == 1 && p.bufSize == MIN_SIZE
    && p.ring[0].begin == begin && p.ring[0].end == end && p.ring[0].len == MIN_SIZE - EXTRA_SIZE
    && exists qs :: Represents(p, qs)
  }

  /** A step that the guards allow. */
  ghost predicate Allowed(p: Pipe, op: Op, out: Out) {
    op.Put? ==> IsMessage(op.m) && (p.Wellformed() ==> !Clobbers(p, op.m) && (out == Stored ==> !Overflows(p, op.m)))
  }

  lemma Extend(t: Trace, op: Op, out: Out, p: Pipe) returns (t': Trace)
    requires t.Ok() && Step(t.Last(), op, out, p) && Allowed(t.Last(), op, out)
    ensures t'.Ok() && t'.Last() == p && t'.ps[0] == t.ps[0]
  {
    t' := Trace(t.ps + [p], t.ops + [op], t.outs + [out]);
    forall i: nat | i < |t'.ops|
      ensures t'.Fine(i)
    {
      if i < |t.ops| {
        assert t.Fine(i);
      }
    }
  }

  lemma PutSized(t: Trace, n: nat, begin: nat, end: nat) returns (t': Trace)
    requires t.Ok() && Shape(t.Last(), begin, end) && 2 <= n <= MSG_LIMIT
    requires begin != end || end == 0
    requires StoresInPlace(t.Last().ring[0], Sized(n))
    ensures t'.Ok() && t'.ps[0] == t.ps[0]
    ensures Shape(t'.Last(), begin, InPlace(t.Last().ring[0], Sized(n)).end)
    ensures t'.Last().nmsg == t.Last().nmsg + 1
  {
    var p := t.Last();
    var qs :| Represents(p, qs);
    var p' := PutStep(p, Sized(n), None).0;
    var qs' := PutKeeps(p, qs, Sized(n), None);
    assert Step(p, Put(Sized(n)), Stored, p');
    t' := Extend(t, Put(Sized(n)), Stored, p');
  }

  lemma GetFirst(t: Trace, n: nat, end: nat, qs: seq<seq<Message>>) returns (t': Trace)
    requires t.Ok() && Shape(t.Last(), 0, end) && Represents(t.Last(), qs)
    requires Flat(qs) != [] && |Flat(qs)[0]| == n < end
    ensures t'.Ok() && t'.ps[0] == t.ps[0]
    ensures n < MIN_SIZE - EXTRA_SIZE ==> Shape(t'.Last(), n, end)
  {
    var p := t.Last();
    var qs' := GetKeeps(p, qs);
    t' := Extend(t, Get, Got(Flat(qs)[0]), GetStep(p).0);
  }

  /** Seven messages of 510 bytes, the first of them read. */
  lemma FillAndRead(area: seq<byte>) returns (t: Trace)
    requires |area| == MIN_SIZE - EXTRA_SIZE + 2
    ensures t.Ok() && t.ps[0] == New(MIN_SIZE, MIN_SIZE, area) && Shape(t.Last(), 510, 3570)
  {
    var p := New(MIN_SIZE, MIN_SIZE, area);
    NewIsEmpty(MIN_SIZE, MIN_SIZE, area);
    t := Trace([p], [], []);
    var qs: seq<seq<Message>> := [[]];
    var k := 0;
    while k < 7
      invariant 0 <= k <= 7
      invariant t.Ok() && t.ps[0] == p && Shape(t.Last(), 0, 510 * k) && Represents(t.Last(), qs)
      invariant |Flat(qs)| == k && (k > 0 ==> Flat(qs)[0] == Sized(510))
    {
      qs := PutKeeps(t.Last(), qs, Sized(510), None);
      var q := t.Last();
      var t' := Extend(t, Put(Sized(510)), Stored, PutStep(q, Sized(510), None).0);
      t := t';
      k := k + 1;
    }
    t := GetFirst(t, 510, 3570, qs);
  }

  /** A guarded run after which putting an empty message clobbers. */
  lemma ClobberReachable(area: seq<byte>) returns (t: Trace)
    requires |area| == MIN_SIZE - EXTRA_SIZE + 2
    ensures t.Ok() && t.ps[0] == New(MIN_SIZE, MIN_SIZE, area) && IsRun(t.ps, t.ops, t.outs) && Guarded(t.ps, t.ops, t.outs)
    ensures t.Last().Wellformed() && IsMessage(EMPTY) && Clobbers(t.Last(), EMPTY)
  {
    t := FillAndRead(area);
    t := PutSized(t, 506, 510, 3570);
    t := PutSized(t, 2, 510, 506);
    t := PutSized(t, 2, 510, 508);
    t.IsGuardedRun();
  }

  // ---------------------------------------------------------------- buf_size

  /** Unread throughout, the last buffer being written; what has been allocated is 2^j bytes. */
  ghost predicate Packed(p: Pipe, j: nat) {
    exists qs :: PackedAs(p, qs, j)
  }

  ghost predicate PackedAs(p: Pipe, qs: seq<seq<Message>>, j: nat) {
    && Represents(p, qs) && SizesOk(p, MIN_SIZE)
    && p.maxSize == MAX_SIZE && p.bufSize == Pow2(j) && p.w == |p.ring| - 1
    && p.ring[p.w].begin == 0 && p.ring[p.w].end > 0 && p.ring[0].end > 0
  }

  predicate Full(p: Pipe)
    requires p.Wellformed()
  {
    !StoresInPlace(p.ring[p.w], LARGE)
  }

  lemma PutLarge(t: Trace, j: nat) returns (t': Trace)
    requires t.Ok() && Packed(t.Last(), j) && !Full(t.Last())
    ensures t'.Ok() && t'.ps[0] == t.ps[0] && Packed(t'.Last(), j)
    ensures t'.Last() == PutStep(t.Last(), LARGE, None).0 && t'.Last().w == t.Last().w
    ensures t'.Last().ring[t.Last().w] == t.Last().ring[t.Last().w].Append(LARGE)
  {
    var p := t.Last();
    var qs :| PackedAs(p, qs, j);
    var p' := PutStep(p, LARGE, None).0;
    var qs' := PutKeeps(p, qs, LARGE, None);
    PutSizes(p, LARGE, None, MIN_SIZE);
    assert PackedAs(p', qs', j);
    assert Step(p, Put(LARGE), Stored, p');
    t' := Extend(t, Put(LARGE), Stored, p');
  }

  /** Puts until the write buffer takes no more. */
  lemma {:induction false} FillLast(t: Trace, j: nat) returns (t': Trace)
    requires t.Ok() && Packed(t.Last(), j)
    ensures t'.Ok() && t'.ps[0] == t.ps[0] && Packed(t'.Last(), j)
    ensures Full(t'.Last())
    decreases t.Last().ring[t.Last().w].len - t.Last().ring[t.Last().w].end
  {
    t' := t;
    if !Full(t.Last()) {
      t' := PutLarge(t, j);
      t' := FillLast(t', j);
    }
  }

  /** One more put doubles what is allocated. */
  lemma DoubleLast(t: Trace, j: nat) returns (t': Trace)
    requires t.Ok() && Packed(t.Last(), j) && j < 31 && Full(t.Last())
    ensures t'.Ok() && t'.ps[0] == t.ps[0] && Packed(t'.Last(), j + 1)
  {
    var p := t.Last();
    var area: seq<byte> := seq(p.bufSize - EXTRA_SIZE + 2, _ => 0);
    var p' := Doubled(p, j, area);
    assert Step(p, Put(LARGE), Stored, p');
    t' := Extend(t, Put(LARGE), Stored, p');
  }

  lemma Doubled(p: Pipe, j: nat, area: seq<byte>) returns (p': Pipe)
    requires Packed(p, j) && j < 31 && Full(p) && AllocFits(p, Some(area))
    ensures PutStep(p, LARGE, Some(area)) == (p', true) && Packed(p', j + 1)
  {
    var qs :| PackedAs(p, qs, j);
    CanDouble(p, j);
    p' := Grow(p, LARGE, area);
    GrownPut(p, area);
    var qs' := GrownKeeps(p, qs, area);
    GrownSizes(p, area);
    assert PackedAs(p', qs', j + 1);
  }

  lemma CanDouble(p: Pipe, j: nat)
    requires p.Wellformed() && p.bufSize == Pow2(j) && p.maxSize == MAX_SIZE && j < 31
    ensures p.CanGrow() && p.bufSize < MAX_SIZE && 2 * p.bufSize == Pow2(j + 1)
  {
    Pow2Below(j);
  }

  lemma GrownKeeps(p: Pipe, qs: seq<seq<Message>>, area: seq<byte>) returns (qs': seq<seq<Message>>)
    requires Represents(p, qs) && AllocFits(p, Some(area)) && p.ring[p.w].begin == 0 && p.ring[p.w].end > 0
    requires PutStep(p, LARGE, Some(area)) == (Grow(p, LARGE, area), true) && !Overflows(p, LARGE)
    ensures Represents(Grow(p, LARGE, area), qs')
  {
    qs' := PutKeeps(p, qs, LARGE, Some(area));
  }

  lemma GrownSizes(p: Pipe, area: seq<byte>)
    requires p.Wellformed() && AllocFits(p, Some(area)) && SizesOk(p, MIN_SIZE)
    requires PutStep(p, LARGE, Some(area)) == (Grow(p, LARGE, area), true) && !Overflows(p, LARGE)
    ensures SizesOk(Grow(p, LARGE, area), MIN_SIZE)
  {
    PutSizes(p, LARGE, Some(area), MIN_SIZE);
  }

  lemma GrownPut(p: Pipe, area: seq<byte>)
    requires p.Wellformed() && AllocFits(p, Some(area)) && p.w == |p.ring| - 1 && p.ring[0].end > 0 && p.CanGrow()
    requires Full(p) && p.bufSize < MAX_SIZE
    ensures PutStep(p, LARGE, Some(area)) == (Grow(p, LARGE, area), true) && !Overflows(p, LARGE)
    ensures var p' := Grow(p, LARGE, area);
            && p'.w == |p'.ring| - 1 && p'.ring[p'.w].begin == 0 && p'.ring[p'.w].end > 0 && p'.ring[0].end > 0
            && p'.bufSize == 2 * p.bufSize && p'.maxSize == p.maxSize
  {
  }

  lemma Pow2Below(j: nat)
    requires j < 31
    ensures Pow2(j + 1) == 2 * Pow2(j) <= MAX_SIZE
  {
    MaxIsPow2();
    Pow2Mono(j + 1, 31);
  }

  lemma {:induction false} Climb(t: Trace, j: nat) returns (t': Trace)
    requires t.Ok() && Packed(t.Last(), j) && j <= 31
    ensures t'.Ok() && t'.ps[0] == t.ps[0] && Packed(t'.Last(), 31)
    ensures Full(t'.Last())
    decreases 31 - j
  {
    t' := FillLast(t, j);
    if j < 31 {
      t' := DoubleLast(t', j);
      t' := Climb(t', j + 1);
    }
  }

  /** One message in a pipe with the default sizes. */
  lemma FirstLarge(area: seq<byte>) returns (t: Trace)
    requires |area| == MIN_SIZE - EXTRA_SIZE + 2
    ensures ValidSizes(MAX_SIZE, MIN_SIZE)
    ensures t.Ok() && t.ps[0] == New(MAX_SIZE, MIN_SIZE, area) && Packed(t.Last(), 12)
  {
    DefaultSizes();
    var p := New(MAX_SIZE, MIN_SIZE, area);
    NewIsEmpty(MAX_SIZE, MIN_SIZE, area);
    var qs := PutKeeps(p, [[]], LARGE, None);
    PutSizes(p, LARGE, None, MIN_SIZE);
    assert PackedAs(PutStep(p, LARGE, None).0, qs, 12);
    t := Trace([p], [], []);
    t := Extend(t, Put(LARGE), Stored, PutStep(p, LARGE, None).0);
  }

  lemma DefaultSizes()
    ensures ValidSizes(MAX_SIZE, MIN_SIZE) && Pow2(12) == MIN_SIZE
  {
    assert Pow2(6) == 64;
    assert PowerOfTwo(64);
    assert PowerOfTwo(0x1000);
    assert PowerOfTwo(0x4_0000);
  }

  /** From the default sizes puts alone lead to the put after which buf_size is 0 and 4 GiB are allocated. */
  lemma OverflowReachable(area: seq<byte>, more: seq<byte>) returns (t: Trace)
    requires |area| == MIN_SIZE - EXTRA_SIZE + 2 && |more| == MAX_SIZE - EXTRA_SIZE + 2
    ensures ValidSizes(MAX_SIZE, MIN_SIZE)
    ensures t.Ok() && t.ps[0] == New(MAX_SIZE, MIN_SIZE, area) && IsRun(t.ps, t.ops, t.outs) && Guarded(t.ps, t.ops, t.outs)
    ensures t.Last().Wellformed() && IsMessage(LARGE) && Overflows(t.Last(), LARGE) && AllocFits(t.Last(), Some(more))
    ensures PutStep(t.Last(), LARGE, Some(more)).1
    ensures var p := PutStep(t.Last(), LARGE, Some(more)).0;
            p.bufSize == 0 && Total(p.ring) == UINT_MOD
  {
    t := FirstLarge(area);
    t := Climb(t, 12);
    t.IsGuardedRun();
    MaxIsPow2();
    GrowTotal(t.Last(), LARGE, more);
  }
}
