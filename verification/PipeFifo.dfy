/**
 The pipe refines a first-in first-out queue of whole messages: what each step keeps, every run,
 exactly when a step breaks it, and the sizes of the ring.
 */
module PipeFifo {
  import opened Bytes
  import opened Powers
  import opened PipeRing

  // ---------------------------------------------------------------- one step

  /** A step of pipe_put that stores keeps the representation and appends exactly `m`. */
  lemma PutKeeps(p: Pipe, qs: seq<seq<Message>>, m: Message, alloc: Option<seq<byte>>)
      returns (qs': seq<seq<Message>>)
    requires Represents(p, qs) && IsMessage(m) && AllocFits(p, alloc)
    requires !Clobbers(p, m) && (PutStep(p, m, alloc).1 ==> !Overflows(p, m))
    ensures var (p', stored) := PutStep(p, m, alloc);
            Represents(p', qs') && Flat(qs') == Flat(qs) + (if stored then [m] else [])
  {
    var b := p.ring[p.w];
    if StoresInPlace(b, m) {
      assert Holds(b, qs[p.w]);
      InPlaceHolds(b, qs[p.w], m);
      ReplaceKeeps(p, qs, InPlace(b, m), m);
      return qs[p.w := qs[p.w] + [m]];
    }
    UsedUnlessEmpty(p, qs);
    if p.NextW() != p.w && p.ring[p.NextW()].Unused() {
      MoveOnKeeps(p, qs, m);
      return qs + [[m]];
    } else if p.CanGrow() && alloc.Some? {
      GrowKeeps(p, qs, m, alloc.value);
      return qs + [[m]];
    } else {
      return qs;
    }
  }

  lemma ReplaceKeeps(p: Pipe, qs: seq<seq<Message>>, b: Buf, m: Message)
    requires Represents(p, qs) && b.begin == p.ring[p.w].begin && Holds(b, qs[p.w] + [m])
    ensures var qs' := qs[p.w := qs[p.w] + [m]];
            && Represents(p.(ring := p.ring[p.w := b], nmsg := p.nmsg + 1), qs')
            && Flat(qs') == Flat(qs) + [m]
  {
    FlatExtendLast(qs, m);
  }

  lemma MoveOnKeeps(p: Pipe, qs: seq<seq<Message>>, m: Message)
    requires Represents(p, qs) && IsMessage(m) && qs[p.w] != []
    requires p.w + 1 < |p.ring| && p.ring[p.w + 1].Unused()
    ensures Represents(MoveOn(p, m), qs + [[m]]) && Flat(qs + [[m]]) == Flat(qs) + [m]
  {
    FlatSnoc(qs, [m]);
    FreshHolds(p.ring[p.w + 1], m);
  }

  lemma GrowKeeps(p: Pipe, qs: seq<seq<Message>>, m: Message, area: seq<byte>)
    requires Represents(p, qs) && IsMessage(m) && qs[p.w] != []
    requires AllocFits(p, Some(area)) && p.bufSize < MAX_SIZE && p.CanGrow()
    ensures Represents(Grow(p, m, area), qs + [[m]]) && Flat(qs + [[m]]) == Flat(qs) + [m]
  {
    FlatSnoc(qs, [m]);
    FreshHolds(Buf(0, 0, p.bufSize - EXTRA_SIZE, area), m);
    GrownRing(p, m, area);
  }

  lemma GrownRing(p: Pipe, m: Message, area: seq<byte>)
    requires p.Wellformed() && IsMessage(m) && AllocFits(p, Some(area))
    ensures var r := Grow(p, m, area).ring;
            && |r| == |p.ring| + 1 && r[p.w + 1] == Buf(0, 0, p.bufSize - EXTRA_SIZE, area).Append(m)
            && (forall i :: 0 <= i <= p.w ==> r[i] == p.ring[i])
            && forall i :: p.w + 1 < i < |r| ==> r[i] == p.ring[i - 1]
  {
  }

  /** Every buffer of the arc is in use; an empty pipe has its only candidate at the front. */
  lemma UsedUnlessEmpty(p: Pipe, qs: seq<seq<Message>>)
    requires Represents(p, qs)
    ensures forall i :: 0 <= i <= p.w && qs[i] != [] ==> !p.ring[i].Unused()
    ensures qs[p.w] == [] ==> p.w == 0 && p.ring[0].Unused()
  {
    forall i | 0 <= i <= p.w && qs[i] != []
      ensures !p.ring[i].Unused()
    {
      FlatEmptyIff(qs[i]);
      assert Holds(p.ring[i], qs[i]);
    }
    assert Holds(p.ring[p.w], qs[p.w]);
    FlatEmptyIff(qs[p.w]);
  }

  /** A step of pipe_get returns the oldest message byte for byte and removes only that one. */
  lemma GetKeeps(p: Pipe, qs: seq<seq<Message>>) returns (qs': seq<seq<Message>>)
    requires Represents(p, qs)
    ensures GetSafe(p)
    ensures GetStep(p).1 == (if Flat(qs) == [] then None else Some(Flat(qs)[0]))
    ensures Represents(GetStep(p).0, qs')
    ensures Flat(qs') == if Flat(qs) == [] then [] else Flat(qs)[1..]
  {
    if p.nmsg == 0 {
      return qs;
    }
    assert Flat(qs) == qs[0] + Flat(qs[1..]);
    FirstNonEmpty(p, qs);
    var b := p.ring[0];
    assert Holds(b, qs[0]);
    FrontHolds(b, qs[0]);
    if |qs[0]| == 1 && p.nmsg > 1 {
      RotateKeeps(p, qs, b.DropFront());
      return qs[1..];
    } else {
      DropKeeps(p, qs, b.DropFront());
      return qs[0 := qs[0][1..]];
    }
  }

  lemma FirstNonEmpty(p: Pipe, qs: seq<seq<Message>>)
    requires Represents(p, qs) && p.nmsg > 0
    ensures qs[0] != []
    ensures |qs[0]| == 1 ==> (p.nmsg > 1 <==> p.w > 0)
  {
    if p.w == 0 {
      FlatSingle(qs[0]);
      assert qs == [qs[0]];
    } else {
      NonEmptyFlat(qs[1..], 0);
    }
  }

  lemma RotateKeeps(p: Pipe, qs: seq<seq<Message>>, b: Buf)
    requires Represents(p, qs) && p.w > 0 && |qs[0]| == 1
    requires b.Wellformed() && b.Unused()
    ensures Represents(p.(ring := p.ring[1..] + [b], w := p.w - 1, nmsg := p.nmsg - 1), qs[1..])
  {
    var ring := p.ring[1..] + [b];
    assert forall i :: 0 <= i < |p.ring| - 1 ==> ring[i] == p.ring[i + 1];
  }

  lemma DropKeeps(p: Pipe, qs: seq<seq<Message>>, b: Buf)
    requires Represents(p, qs) && qs[0] != [] && Holds(b, qs[0][1..])
    requires p.w > 0 ==> |qs[0]| > 1
    ensures Represents(p.(ring := p.ring[0 := b], nmsg := p.nmsg - 1), qs[0 := qs[0][1..]])
    ensures Flat(qs[0 := qs[0][1..]]) == Flat(qs)[1..]
  {
    assert qs[0 := qs[0][1..]][1..] == qs[1..];
  }

  lemma NonEmptyFlat<T>(qs: seq<seq<T>>, i: nat)
    requires i < |qs| && qs[i] != []
    ensures Flat(qs) != []
    decreases i
  {
    if i > 0 { NonEmptyFlat(qs[1..], i - 1); }
  }

  // ---------------------------------------------------------------- exactly when a put breaks it

  /**
   For every represented pipe and message that is stored, the new state represents the old contents
   followed by the message if and only if the put neither clobbers nor needs a buffer when buf_size is 2^31.
   */
  lemma PutKeepsIff(p: Pipe, qs: seq<seq<Message>>, m: Message, alloc: Option<seq<byte>>)
    requires Represents(p, qs) && IsMessage(m) && AllocFits(p, alloc) && PutStep(p, m, alloc).1
    ensures Continues(PutStep(p, m, alloc).0, Flat(qs) + [m]) <==> !Clobbers(p, m) && !Overflows(p, m)
  {
    if Overflows(p, m) {
      OverflowLoses(p, m, alloc);
    } else if Clobbers(p, m) {
      ClobberLoses(p, qs, m, alloc);
    } else {
      var qs' := PutKeeps(p, qs, m, alloc);
    }
  }

  /** The state represents exactly the messages `q`. */
  ghost predicate Continues(p: Pipe, q: seq<Message>) {
    exists qs :: Represents(p, qs) && Flat(qs) == q
  }

  lemma OverflowLoses(p: Pipe, m: Message, alloc: Option<seq<byte>>)
    requires p.Wellformed() && |m| <= MSG_LIMIT && AllocFits(p, alloc) && Overflows(p, m) && PutStep(p, m, alloc).1
    ensures PutStep(p, m, alloc).0.bufSize == 0
    ensures forall qs :: !Represents(PutStep(p, m, alloc).0, qs)
  {
  }

  lemma ClobberLoses(p: Pipe, qs: seq<seq<Message>>, m: Message, alloc: Option<seq<byte>>)
    requires Represents(p, qs) && IsMessage(m) && AllocFits(p, alloc) && Clobbers(p, m)
    ensures forall qs' :: !Represents(PutStep(p, m, alloc).0, qs')
  {
    ClobberedFront(p, qs, m, alloc);
    forall qs'
      ensures !Represents(PutStep(p, m, alloc).0, qs')
    {
      NotRepresented(PutStep(p, m, alloc).0, qs');
    }
  }

  /** A front message that ends the only buffer in use cannot be one of several. */
  lemma NotRepresented(p: Pipe, qs: seq<seq<Message>>)
    requires p.Wellformed() && p.w == 0 && p.nmsg > 1 && p.ring[0].Readable() && p.ring[0].Drained()
    ensures !Represents(p, qs)
  {
    if Represents(p, qs) {
      assert qs == [qs[0]];
      FlatSingle(qs[0]);
      assert Holds(p.ring[0], qs[0]);
      FrontHolds(p.ring[0], qs[0]);
      assert false;
    }
  }

  /** After a clobbering put the write buffer is the read buffer and shows the new message alone. */
  lemma ClobberedFront(p: Pipe, qs: seq<seq<Message>>, m: Message, alloc: Option<seq<byte>>)
    requires Represents(p, qs) && IsMessage(m) && AllocFits(p, alloc) && Clobbers(p, m)
    ensures p.w == 0 && Flat(qs) != []
    ensures var p' := PutStep(p, m, alloc).0;
            p'.w == 0 && p'.ring[0].Readable() && p'.ring[0].Front() == m && p'.ring[0].Drained()
  {
    var b := p.ring[p.w];
    assert p.w == 0;
    assert qs == [qs[0]];
    FlatSingle(qs[0]);
    assert Holds(b, qs[0]);
    FullBuf(b, qs[0]);
    ClobberedBuf(b, m);
  }

  lemma FullBuf(b: Buf, q: seq<Message>)
    requires Holds(b, q) && b.begin == b.end != 0
    ensures q != [] && b.begin >= 2
  {
    FlatEmptyIff(q);
    if !Straight(b, q) {
      var k: nat, s: nat :| WrappedAt(b, q, k, s);
      FlatEmptyIff(q[k..]);
    }
  }

  lemma ClobberedBuf(b: Buf, m: Message)
    requires b.Wellformed() && IsMessage(m) && StoresInPlace(b, m) && b.begin == b.end >= 2
    ensures var c := InPlace(b, m);
            c.Readable() && c.Front() == m && c.Drained()
  {
    var c := InPlace(b, m);
    if |m| <= b.Room() {
      SpliceKeeps(b.data, b.end, m);
      assert c.data[c.begin..c.begin + |m|] == m;
      U16Prefix(c.data, c.begin, m);
    } else {
      var v := b.Wrap();
      SpliceKeeps(b.data, b.end, [0, 0]);
      SpliceKeeps(v.data, v.end, m);
      assert c.data[b.begin..b.begin + 2] == v.data[b.begin..b.begin + 2] == [0, 0];
      U16Prefix(c.data, c.begin, [0, 0]);
      assert c.data[0..|m|] == m;
      U16Prefix(c.data, 0, m);
    }
  }

  lemma U16Prefix(d: seq<byte>, at: nat, m: seq<byte>)
    requires 2 <= |m| && at + |m| <= |d| && d[at..at + |m|] == m
    ensures U16(d, at) == U16(m, 0)
  {
    assert d[at] == d[at..at + |m|][0] && d[at + 1] == d[at..at + |m|][1];
  }

  /** What a reader sees: after a clobbering put the next get returns the newest message. */
  lemma ClobberOvertakes(p: Pipe, qs: seq<seq<Message>>, m: Message, alloc: Option<seq<byte>>)
    requires Represents(p, qs) && IsMessage(m) && AllocFits(p, alloc) && Clobbers(p, m)
    ensures Flat(qs) != []
    ensures var p' := PutStep(p, m, alloc).0;
            GetSafe(p') && GetStep(p').1 == Some(m)
  {
    ClobberedFront(p, qs, m, alloc);
  }

  // ---------------------------------------------------------------- every run

  datatype Op = Put(m: Message) | Get

  datatype Out = Stored | WaitGet | Got(m: Message) | WaitPut

  /** One critical section.  From a state the code does not expect, anything may follow. */
  ghost predicate Step(p: Pipe, op: Op, out: Out, p': Pipe) {
    match op
    case Put(m) =>
      p.Wellformed() && IsMessage(m) ==>
        exists alloc :: AllocFits(p, alloc) &&
                        PutStep(p, m, alloc) == (p', out == Stored) && (out == Stored || out == WaitGet)
    case Get =>
      GetSafe(p) ==>
        GetStep(p) == (p', if out.Got? then Some(out.m) else None) && (out.Got? || out == WaitPut)
  }

  ghost predicate IsRun(ps: seq<Pipe>, ops: seq<Op>, outs: seq<Out>) {
    |ps| == |ops| + 1 && |outs| == |ops| &&
    forall i :: 0 <= i < |ops| ==> Step(ps[i], ops[i], outs[i], ps[i + 1])
  }

  /** The guard on a run: proper messages, no put that clobbers and none that overflows buf_size. */
  ghost predicate Guarded(ps: seq<Pipe>, ops: seq<Op>, outs: seq<Out>) {
    Unclobbered(ps, ops) && Bounded(ps, ops, outs)
  }

  ghost predicate Unclobbered(ps: seq<Pipe>, ops: seq<Op>) {
    |ps| == |ops| + 1 &&
    forall i :: 0 <= i < |ops| && ops[i].Put? ==>
                  IsMessage(ops[i].m) && (ps[i].Wellformed() ==> !Clobbers(ps[i], ops[i].m))
  }

  ghost predicate Bounded(ps: seq<Pipe>, ops: seq<Op>, outs: seq<Out>) {
    |ps| == |ops| + 1 && |outs| == |ops| &&
    forall i :: 0 <= i < |ops| && ops[i].Put? && outs[i] == Stored && ps[i].Wellformed() ==>
                  !Overflows(ps[i], ops[i].m)
  }

  /** The plain queue: does it answer `ops` with `outs`, starting from `q`? */
  ghost predicate FifoAnswers(q: seq<Message>, ops: seq<Op>, outs: seq<Out>)
    requires |ops| == |outs|
    decreases |ops|
  {
    ops == [] ||
    match ops[0]
    case Put(m) =>
      || (outs[0] == Stored && FifoAnswers(q + [m], ops[1..], outs[1..]))
      || (outs[0] == WaitGet && FifoAnswers(q, ops[1..], outs[1..]))
    case Get =>
      if q == [] then outs[0] == WaitPut && FifoAnswers(q, ops[1..], outs[1..])
      else outs[0] == Got(q[0]) && FifoAnswers(q[1..], ops[1..], outs[1..])
  }

  function FifoAfter(q: seq<Message>, ops: seq<Op>, outs: seq<Out>): seq<Message>
    requires |ops| == |outs|
    decreases |ops|
  {
    if ops == [] then q
    else if ops[0].Put? then
      FifoAfter(if outs[0] == Stored then q + [ops[0].m] else q, ops[1..], outs[1..])
    else
      FifoAfter(if q == [] then q else q[1..], ops[1..], outs[1..])
  }

  /** The invariant of a run: contents, and sizes that cannot overflow. */
  ghost predicate Inv(p: Pipe, qs: seq<seq<Message>>, minSize: nat) {
    Represents(p, qs) && SizesOk(p, minSize)
  }

  /**
   Over every guarded run from a represented state, the pipe answers as the plain queue does, the
   final state represents the final queue and nmsg is its length.
   */
  lemma {:induction false} RunRefinesFifo(ps: seq<Pipe>, ops: seq<Op>, outs: seq<Out>,
                                          qs: seq<seq<Message>>, minSize: nat)
      returns (qs': seq<seq<Message>>)
    requires IsRun(ps, ops, outs) && Guarded(ps, ops, outs) && Inv(ps[0], qs, minSize)
    ensures FifoAnswers(Flat(qs), ops, outs)
    ensures var last := ps[|ops|];
            && Inv(last, qs', minSize)
            && Flat(qs') == FifoAfter(Flat(qs), ops, outs)
            && last.nmsg == |Flat(qs')| && last.maxSize == ps[0].maxSize
    decreases |ops|
  {
    if ops == [] {
      return qs;
    }
    assert Step(ps[0], ops[0], outs[0], ps[1]);
    var mid := StepRefines(ps[0], ops[0], outs[0], ps[1], qs, minSize);
    qs' := RunRefinesFifo(ps[1..], ops[1..], outs[1..], mid, minSize);
  }

  /** One step against the plain queue. */
  lemma StepRefines(p: Pipe, op: Op, out: Out, p': Pipe, qs: seq<seq<Message>>, minSize: nat)
      returns (mid: seq<seq<Message>>)
    requires Step(p, op, out, p') && Inv(p, qs, minSize)
    requires op.Put? ==> IsMessage(op.m) && !Clobbers(p, op.m) && (out == Stored ==> !Overflows(p, op.m))
    ensures Inv(p', mid, minSize) && p'.maxSize == p.maxSize
    ensures op.Put? ==> out == WaitGet || out == Stored
    ensures op.Put? ==> Flat(mid) == if out == Stored then Flat(qs) + [op.m] else Flat(qs)
    ensures op.Get? ==> out == if Flat(qs) == [] then WaitPut else Got(Flat(qs)[0])
    ensures op.Get? ==> Flat(mid) == if Flat(qs) == [] then [] else Flat(qs)[1..]
  {
    match op {
      case Put(m) =>
        var alloc :| AllocFits(p, alloc) && PutStep(p, m, alloc) == (p', out == Stored);
        mid := PutKeeps(p, qs, m, alloc);
        PutSizes(p, m, alloc, minSize);
        assert Flat(qs) + [] == Flat(qs);
      case Get =>
        mid := GetKeeps(p, qs);
        GetSizes(p, minSize);
    }
  }

  /** With arguments for which 2 * buf_size never wraps around no run overflows it. */
  lemma {:induction false} NeverOverflows(ps: seq<Pipe>, ops: seq<Op>, outs: seq<Out>,
                                          qs: seq<seq<Message>>, minSize: nat)
    requires IsRun(ps, ops, outs) && Unclobbered(ps, ops) && Inv(ps[0], qs, minSize)
    requires NeverFull32(ps[0].maxSize, minSize)
    ensures Bounded(ps, ops, outs)
    decreases |ops|
  {
    if ops != [] {
      assert Step(ps[0], ops[0], outs[0], ps[1]);
      BelowLimit(ps[0], minSize);
      var mid := StepRefines(ps[0], ops[0], outs[0], ps[1], qs, minSize);
      NeverOverflows(ps[1..], ops[1..], outs[1..], mid, minSize);
      forall i | 0 <= i < |ops| && ops[i].Put? && outs[i] == Stored && ps[i].Wellformed()
        ensures !Overflows(ps[i], ops[i].m)
      {
        if i > 0 {
          assert ps[1..][i - 1] == ps[i] && ops[1..][i - 1] == ops[i] && outs[1..][i - 1] == outs[i];
        }
      }
    }
  }

  /** A new pipe is empty, so RunRefinesFifo speaks of every run from pipe_new on. */
  lemma NewIsEmpty(maxSize: nat, minSize: nat, area: seq<byte>)
    requires ValidSizes(maxSize, minSize) && |area| == minSize - EXTRA_SIZE + 2
    ensures Inv(New(maxSize, minSize, area), [[]], minSize) && Flat<Message>([[]]) == []
  {
    var p := New(maxSize, minSize, area);
    FlatSingle<Message>([]);
    assert p.ring[0].data[0..0] == [];
    assert Straight(p.ring[0], []);
    assert p.ring[1..] == [];
    assert Total(p.ring) == minSize + Total([]);
    assert minSize == minSize * Pow2(0);
  }

  /** An empty pipe never makes a writer wait. */
  lemma EmptyNeverWaits(p: Pipe, qs: seq<seq<Message>>, m: Message, alloc: Option<seq<byte>>)
    requires Represents(p, qs) && Flat(qs) == [] && IsMessage(m) && AllocFits(p, alloc)
    ensures PutStep(p, m, alloc).1
  {
    if qs[p.w] != [] {
      NonEmptyFlat(qs, p.w);
    }
    UsedUnlessEmpty(p, qs);
  }

  // ---------------------------------------------------------------- when a put waits

  /** The bytes do not fit behind `end`, or into the gap of a wrapped buffer, nor before `begin` of another one. */
  predicate Crowded(b: Buf, m: Message) {
    if b.end < b.begin then b.begin - b.end < |m| else b.len - b.end < |m| && b.begin <= |m|
  }

  /** A buffer other than the one written to is unused. */
  predicate OtherUnused(p: Pipe) {
    exists i :: 0 <= i < |p.ring| && i != p.w && p.ring[i].begin == 0 && p.ring[i].end == 0
  }

  lemma EmptyHasRoom(p: Pipe, qs: seq<seq<Message>>, m: Message)
    requires Represents(p, qs) && Flat(qs) == [] && IsMessage(m)
    ensures !Crowded(p.ring[p.w], m)
  {
    if qs[p.w] != [] {
      NonEmptyFlat(qs, p.w);
    }
    UsedUnlessEmpty(p, qs);
  }

  /** Any unused buffer is next to the one written to. */
  lemma OtherUnusedIsNext(p: Pipe, qs: seq<seq<Message>>)
    requires Represents(p, qs) && Flat(qs) != []
    ensures OtherUnused(p) <==> p.NextW() != p.w && p.ring[p.NextW()].Unused()
  {
    if OtherUnused(p) {
      var i :| 0 <= i < |p.ring| && i != p.w && p.ring[i].begin == 0 && p.ring[i].end == 0;
      UsedUnlessEmpty(p, qs);
      assert i > p.w;
    }
  }

  /**
   A put waits if and only if the message finds no room in the buffer written to, no other buffer is unused,
   and no buffer can be added: the doubled size would exceed the maximum, or malloc fails.
   */
  lemma PutWaitsIff(p: Pipe, qs: seq<seq<Message>>, m: Message, alloc: Option<seq<byte>>)
    requires Represents(p, qs) && IsMessage(m) && AllocFits(p, alloc)
    ensures !PutStep(p, m, alloc).1 <==>
              && Crowded(p.ring[p.w], m) && !OtherUnused(p)
              && (2 * p.bufSize % UINT_MOD > p.maxSize || alloc == None)
  {
    if Flat(qs) == [] {
      EmptyNeverWaits(p, qs, m, alloc);
      EmptyHasRoom(p, qs, m);
    } else {
      OtherUnusedIsNext(p, qs);
    }
  }

  /**
   A put that stores adds a buffer if and only if there is no room and no unused buffer; it leaves the buffer
   written to if and only if there is no room in it, and then writes to one that held nothing.
   */
  lemma PutPlaces(p: Pipe, qs: seq<seq<Message>>, m: Message, alloc: Option<seq<byte>>)
    requires Represents(p, qs) && IsMessage(m) && AllocFits(p, alloc) && PutStep(p, m, alloc).1
    ensures var p' := PutStep(p, m, alloc).0;
            && p'.nmsg == p.nmsg + 1 && p'.maxSize == p.maxSize && p'.w < |p'.ring|
            && |p'.ring| == |p.ring| + (if Crowded(p.ring[p.w], m) && !OtherUnused(p) then 1 else 0)
            && p'.bufSize == (if |p'.ring| > |p.ring| then 2 * p.bufSize % UINT_MOD else p.bufSize)
            && (p'.w == p.w <==> !Crowded(p.ring[p.w], m))
            && (Crowded(p.ring[p.w], m) ==> p'.ring[p'.w].begin == 0 && p'.ring[p'.w].end == |m|)
  {
    if Flat(qs) == [] {
      EmptyHasRoom(p, qs, m);
    } else {
      OtherUnusedIsNext(p, qs);
    }
  }

  // ---------------------------------------------------------------- sizes of the ring

  /** The sum of what was allocated for the buffers. */
  function Total(ring: seq<Buf>): nat {
    if ring == [] then 0 else ring[0].len + EXTRA_SIZE + Total(ring[1..])
  }

  lemma {:induction false} TotalAppend(a: seq<Buf>, b: seq<Buf>)
    ensures Total(a + b) == Total(a) + Total(b)
  {
    if a == [] {
      assert a + b == b;
    } else {
      assert (a + b)[1..] == a[1..] + b;
      TotalAppend(a[1..], b);
    }
  }

  lemma TotalUpdate(ring: seq<Buf>, i: nat, b: Buf)
    requires i < |ring| && b.len == ring[i].len
    ensures Total(ring[i := b]) == Total(ring)
  {
    assert ring == ring[..i] + ([ring[i]] + ring[i + 1..]);
    assert ring[i := b] == ring[..i] + ([b] + ring[i + 1..]);
    TotalAppend(ring[..i], [ring[i]] + ring[i + 1..]);
    TotalAppend(ring[..i], [b] + ring[i + 1..]);
    assert ([b] + ring[i + 1..])[1..] == ([ring[i]] + ring[i + 1..])[1..];
  }

  /** buf_size is what the ring takes, min_size times a power of two, within buf_max_size. */
  ghost predicate SizesOk(p: Pipe, minSize: nat) {
    && Total(p.ring) == p.bufSize <= p.maxSize
    && minSize >= MIN_SIZE
    && exists k: nat :: p.bufSize == minSize * Pow2(k)
  }

  /** The arguments for which 2 * buf_size never wraps around in 32 bits. */
  predicate NeverFull32(maxSize: nat, minSize: nat) {
    maxSize < MAX_SIZE || !PowerOfTwo(minSize)
  }

  lemma BelowLimit(p: Pipe, minSize: nat)
    requires p.Wellformed() && SizesOk(p, minSize) && NeverFull32(p.maxSize, minSize)
    ensures p.bufSize < MAX_SIZE
  {
    var k: nat :| p.bufSize == minSize * Pow2(k);
    if p.bufSize == MAX_SIZE {
      MaxIsPow2();
      DividesPow2(minSize, k, 31);
    }
  }

  lemma MaxIsPow2()
    ensures MAX_SIZE == Pow2(31)
  {
    assert Pow2(8) == 256;
    assert Pow2(16) == 0x1_0000;
    assert Pow2(24) == 0x100_0000;
  }

  /** A divisor of a power of two is one; the quotient being one too. */
  lemma {:induction false} DividesPow2(n: nat, k: nat, e: nat)
    requires n * Pow2(k) == Pow2(e)
    ensures PowerOfTwo(n)
    decreases k, e
  {
    if k > 0 {
      HalfProduct(n, Pow2(k - 1));
      if e > 0 {
        DividesPow2(n, k - 1, e - 1);
      }
    } else if e > 0 {
      DividesPow2(Pow2(e - 1), 0, e - 1);
    }
  }

  lemma HalfProduct(n: nat, h: nat)
    ensures n * (2 * h) == 2 * (n * h)
  {
  }

  lemma PutSizes(p: Pipe, m: Message, alloc: Option<seq<byte>>, minSize: nat)
    requires p.Wellformed() && IsMessage(m) && AllocFits(p, alloc) && SizesOk(p, minSize)
    requires PutStep(p, m, alloc).1 ==> !Overflows(p, m)
    ensures SizesOk(PutStep(p, m, alloc).0, minSize)
    ensures PutStep(p, m, alloc).0.maxSize == p.maxSize
  {
    var b := p.ring[p.w];
    var nx := p.NextW();
    if StoresInPlace(b, m) {
      TotalUpdate(p.ring, p.w, InPlace(b, m));
    } else if nx != p.w && p.ring[nx].Unused() {
      TotalUpdate(p.ring, nx, p.ring[nx].Append(m));
    } else if p.CanGrow() && alloc.Some? {
      GrowTotal(p, m, alloc.value);
      DoublePow2(p.bufSize, minSize);
    }
  }

  lemma DoublePow2(n: nat, minSize: nat)
    requires exists k: nat :: n == minSize * Pow2(k)
    ensures exists k: nat :: 2 * n == minSize * Pow2(k)
  {
    var k: nat :| n == minSize * Pow2(k);
    assert 2 * n == minSize * Pow2(k + 1);
  }

  /** Growing doubles the ring; buf_size follows it if and only if it was below 2^31. */
  lemma GrowTotal(p: Pipe, m: Message, area: seq<byte>)
    requires p.Wellformed() && IsMessage(m) && AllocFits(p, Some(area)) && Total(p.ring) == p.bufSize
    requires p.bufSize <= MAX_SIZE
    ensures var p' := Grow(p, m, area);
            && Total(p'.ring) == 2 * Total(p.ring)
            && (p'.bufSize == Total(p'.ring) <==> p.bufSize < MAX_SIZE)
            && (p.bufSize == MAX_SIZE ==> p.CanGrow() && p'.bufSize == 0)
  {
    var ring := Grow(p, m, area).ring;
    var l, r := p.ring[..p.w + 1], p.ring[p.w + 1..];
    var x := ring[p.w + 1];
    assert ring == l + ([x] + r) && p.ring == l + r;
    TotalAppend(l, [x] + r);
    TotalAppend(l, r);
    assert ([x] + r)[1..] == r;
  }

  lemma GetSizes(p: Pipe, minSize: nat)
    requires GetSafe(p) && SizesOk(p, minSize)
    ensures SizesOk(GetStep(p).0, minSize)
    ensures GetStep(p).0.maxSize == p.maxSize
  {
    if p.nmsg > 0 {
      var b := p.ring[0].DropFront();
      assert p.ring == [p.ring[0]] + p.ring[1..];
      assert p.ring[0 := b] == [b] + p.ring[1..];
      TotalAppend(p.ring[1..], [b]);
      assert [b][1..] == [];
      assert ([b] + p.ring[1..])[1..] == p.ring[1..];
    }
  }
}
