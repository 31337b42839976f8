/**
 The pipe as src/thread/thread_pipe.c keeps it: buffers linked into a circle by next_buf, copied out,
 changed and copied back in place under the critical section.  A buffer pointer is the number of the
 malloc that returned it: `heap` holds the buffers and `next` their next_buf fields.
 */
module PipeQueue {
  import opened Bytes
  import opened Lists
  import opened PipeRing
  import opened PipeFifo

  class PipeQueue {
    var nmsg: nat
    var rbuf: nat
    var wbuf: nat
    var bufSize: nat
    const maxSize: nat
    var heap: seq<Buf>
    var next: seq<nat>

    /** The circle from rbuf on, the state it amounts to, and its contents buffer by buffer. */
    ghost var ring: seq<nat>
    ghost var view: Pipe
    ghost var qs: seq<seq<Message>>

    /** The fields and buffers amount to `view`. */
    ghost predicate Mirrors()
      reads this
    {
      && Linked(heap, next, ring, view.ring) && view.Formed() && |ring| == |view.ring|
      && rbuf == ring[0] && wbuf == ring[view.w]
      && nmsg == view.nmsg && bufSize == view.bufSize && maxSize == view.maxSize
    }

    ghost predicate Valid()
      reads this
    {
      Mirrors() && view.Wellformed() && Represents(view, qs)
    }

    /** pipe_new, with the memory malloc returned. */
    constructor (max: nat, min: nat, area: seq<byte>)
      requires ValidSizes(max, min) && |area| == min - EXTRA_SIZE + 2
      ensures Valid() && Flat(qs) == [] && SizesOk(view, min) && maxSize == max
    {
      nmsg, rbuf, wbuf, bufSize, maxSize := 0, 0, 0, min, max;
      heap, next := [Buf(0, 0, min - EXTRA_SIZE, area)], [0];
      ring, view, qs := [0], New(max, min, area), [[]];
      NewIsEmpty(max, min, area);
      new;
      OneLinked(heap[0]);
    }

    /**
     One pass of the loop of pipe_put, tied to PutStep.  It waits only for want of room, of an unused buffer
     and of a new one; unless it clobbers or overflows, the contents grow by exactly `m`.
     */
    method TryPut(m: Message, alloc: Option<seq<byte>>) returns (stored: bool)
      requires Valid() && IsMessage(m) && AllocFits(view, alloc)
      modifies this
      ensures Mirrors() && (view, stored) == PutStep(old(view), m, alloc)
      ensures !stored <==> Crowded(old(view.ring[view.w]), m) && !OtherUnused(old(view))
                           && (2 * old(bufSize) % UINT_MOD > maxSize || alloc == None)
      ensures !Clobbers(old(view), m) && !Overflows(old(view), m) ==>
                Valid() && Flat(qs) == old(Flat(qs)) + if stored then [m] else []
    {
      PutWaitsIff(view, qs, m, alloc);
      if !Clobbers(view, m) && !Overflows(view, m) {
        qs := PutKeeps(view, qs, m, alloc);
      }
      stored := Write(m, alloc);
    }

    method Write(m: Message, alloc: Option<seq<byte>>) returns (stored: bool)
      requires Mirrors() && view.Wellformed() && |m| <= MSG_LIMIT && AllocFits(view, alloc)
      modifies this
      ensures Mirrors() && qs == old(qs)
      ensures (view, stored) == PutStep(old(view), m, alloc)
    {
      NextOfWrite(heap, next, ring, view);
      var buf, nb := heap[wbuf], next[wbuf];
      var wrapped := buf.end < buf.begin;
      var room := (if wrapped then buf.begin else buf.len) - buf.end;
      if |m| <= room || (!wrapped && buf.begin > |m|) {
        StoreHere(m, |m| > room);
        return true;
      } else if wbuf != nb && heap[nb].Unused() {
        StoreNext(m);
        return true;
      } else if 2 * bufSize % UINT_MOD <= maxSize && alloc.Some? {
        StoreNew(m, alloc.value);
        return true;
      } else {
        return false;
      }
    }

    method StoreHere(m: Message, wrap: bool)
      requires Mirrors() && StoresInPlace(view.ring[view.w], m) && wrap == (|m| > view.ring[view.w].Room())
      modifies `heap, `view, `nmsg
      ensures Mirrors()
      ensures view == old(view).(ring := old(view).ring[old(view).w := InPlace(old(view).ring[old(view).w], m)],
                                 nmsg := old(nmsg) + 1)
    {
      NextOfWrite(heap, next, ring, view);
      var buf := heap[wbuf];
      if wrap {
        buf := buf.Wrap();
      }
      CopyBack(wbuf, buf.Append(m), view.w);
      Count();
    }

    method StoreNext(m: Message)
      requires Mirrors() && view.Wellformed() && |m| <= MSG_LIMIT && view.ring[view.NextW()].Unused()
      modifies `heap, `view, `nmsg, `wbuf
      ensures Mirrors() && view == MoveOn(old(view), m)
    {
      MoveWrite();
      NextOfWrite(heap, next, ring, view);
      CopyBack(wbuf, heap[wbuf].Append(m), view.w);
      Count();
    }

    method StoreNew(m: Message, area: seq<byte>)
      requires Mirrors() && view.Wellformed() && |m| <= MSG_LIMIT && Growable(view, area)
      modifies `heap, `next, `ring, `view, `nmsg, `wbuf, `bufSize
      ensures Mirrors() && view == Grow(old(view), m, area)
    {
      LinkNew(area);
      NextOfWrite(heap, next, ring, view);
      CopyBack(wbuf, heap[wbuf].Append(m), view.w);
      Count();
      assert view.ring == Grow(old(view), m, area).ring;
    }

    method Count()
      requires Mirrors()
      modifies `nmsg, `view
      ensures Mirrors() && view == old(view).(nmsg := old(nmsg) + 1)
    {
      nmsg := nmsg + 1;
      view := view.(nmsg := nmsg);
    }

    /** wbuf moves on to the next buffer. */
    method MoveWrite()
      requires Mirrors()
      modifies `wbuf, `view
      ensures Mirrors() && view == old(view).(w := old(view).NextW())
    {
      NextOfWrite(heap, next, ring, view);
      wbuf := next[wbuf];
      view := view.(w := view.NextW());
    }

    /** A new buffer, linked behind wbuf, becomes wbuf. */
    method LinkNew(area: seq<byte>)
      requires Mirrors() && view.Wellformed() && Growable(view, area)
      modifies `heap, `next, `ring, `view, `wbuf, `bufSize
      ensures Mirrors() && view == Extended(old(view), area)
    {
      var wpb := |heap|;
      Grafted(heap, next, ring, view, area);
      heap, next := heap + [Buf(0, 0, bufSize - EXTRA_SIZE, area)], next[wbuf := wpb] + [next[wbuf]];
      ring, view := Insert(ring, view.w + 1, wpb), Extended(view, area);
      wbuf, bufSize := wpb, 2 * bufSize % UINT_MOD;
    }

    /** The changed copy of a buffer goes back to its place. */
    method CopyBack(pb: nat, buf: Buf, ghost k: nat)
      requires Mirrors() && k < |ring| && pb == ring[k] && buf.Wellformed()
      modifies `heap, `view
      ensures Mirrors() && view == old(view).(ring := old(view).ring[k := buf])
    {
      ReplacedLinked(heap, next, ring, view.ring, k, buf);
      heap := heap[pb := buf];
      view := view.(ring := view.ring[k := buf]);
    }

    /** One pass of the loop of pipe_get, tied to GetStep: the oldest message, or None to wait. */
    method TryGet() returns (m: Option<Message>)
      requires Valid()
      modifies this
      ensures Valid()
      ensures GetSafe(old(view)) && (view, m) == GetStep(old(view))
      ensures m == (if old(Flat(qs)) == [] then None else Some(old(Flat(qs))[0]))
      ensures Flat(qs) == if old(Flat(qs)) == [] then [] else old(Flat(qs))[1..]
    {
      qs := GetKeeps(view, qs);
      m := Read();
    }

    method Read() returns (m: Option<Message>)
      requires Mirrors() && GetSafe(view)
      modifies this
      ensures Mirrors() && qs == old(qs)
      ensures (view, m) == GetStep(old(view))
    {
      if nmsg == 0 {
        return None;
      }
      ghost var p := view;
      var more := nmsg > 1;
      var bytes, drained := TakeFront();
      if drained && more {
        MoveRead();
        assert view.ring == GetStep(p).0.ring;
      }
      return Some(bytes);
    }

    /** Copies the oldest message out and drops it from its buffer. */
    method TakeFront() returns (m: Message, drained: bool)
      requires Mirrors() && view.ring[0].Readable() && nmsg > 0
      modifies `heap, `view, `nmsg
      ensures Mirrors()
      ensures m == old(view).ring[0].Front() && drained == old(view).ring[0].Drained()
      ensures view == old(view).(ring := old(view).ring[0 := old(view).ring[0].DropFront()], nmsg := old(nmsg) - 1)
    {
      var buf;
      FirstOfRead(heap, next, ring, view.ring);
      m, drained, buf := FrontOf(heap[rbuf]);
      CopyBack(rbuf, buf, 0);
      nmsg := nmsg - 1;
      view := view.(nmsg := nmsg);
    }

    /** Finds the next message of a copied buffer and moves its read position. */
    static method FrontOf(b: Buf) returns (m: Message, drained: bool, buf: Buf)
      requires b.Readable()
      ensures m == b.Front() && drained == b.Drained() && buf == b.DropFront()
    {
      buf := b;
      var at := buf.begin;
      var size := U16(buf.data, at);
      if size == 0 {
        at := 0;
        size := U16(buf.data, 0);
      }
      m := buf.data[at..at + size];
      drained := at + size == buf.end;
      if drained {
        buf := buf.(begin := 0, end := 0);
      } else {
        buf := buf.(begin := if at + size == buf.len then 0 else at + size);
      }
    }

    /** rbuf moves on to the next buffer. */
    method MoveRead()
      requires Mirrors()
      modifies `rbuf, `ring, `view
      ensures Mirrors()
      ensures view == old(view).(ring := old(view).ring[1..] + [old(view).ring[0]],
                                 w := if old(view).w == 0 then |old(view).ring| - 1 else old(view).w - 1)
    {
      RotatedLinked(heap, next, ring, view.ring);
      rbuf := next[rbuf];
      ring := ring[1..] + [ring[0]];
      view := view.(ring := view.ring[1..] + [view.ring[0]], w := if view.w == 0 then |view.ring| - 1 else view.w - 1);
    }
  }

  /** next_buf leads from each buffer to the one behind it, and from the last to the first. */
  ghost predicate Circle(next: seq<nat>, ring: seq<nat>) {
    && ring != []
    && (forall i :: 0 <= i < |ring| ==> ring[i] < |next|)
    && (forall i {:trigger next[ring[i]]} :: 0 <= i < |ring| - 1 ==> next[ring[i]] == ring[i + 1])
    && next[ring[|ring| - 1]] == ring[0]
    && forall i, j :: 0 <= i < j < |ring| ==> ring[i] != ring[j]
  }

  ghost predicate Amounts(heap: seq<Buf>, ring: seq<nat>, bufs: seq<Buf>) {
    |bufs| == |ring| && forall i :: 0 <= i < |ring| ==> ring[i] < |heap| && bufs[i] == heap[ring[i]]
  }

  datatype Facet = Shape | Values

  /** The two facets of the circle by name. */
  ghost predicate FacetHolds(f: Facet, heap: seq<Buf>, next: seq<nat>, ring: seq<nat>, bufs: seq<Buf>) {
    match f
    case Shape => |heap| == |next| && Circle(next, ring)
    case Values => Amounts(heap, ring, bufs)
  }

  /** The buffers `bufs` are linked along `ring`. */
  ghost predicate Linked(heap: seq<Buf>, next: seq<nat>, ring: seq<nat>, bufs: seq<Buf>) {
    forall f {:trigger FacetHolds(f, heap, next, ring, bufs)} :: FacetHolds(f, heap, next, ring, bufs)
  }

  lemma Unfold(heap: seq<Buf>, next: seq<nat>, ring: seq<nat>, bufs: seq<Buf>)
    requires Linked(heap, next, ring, bufs)
    ensures |heap| == |next| && Circle(next, ring) && Amounts(heap, ring, bufs)
  {
    assert FacetHolds(Shape, heap, next, ring, bufs) && FacetHolds(Values, heap, next, ring, bufs);
  }

  lemma Fold(heap: seq<Buf>, next: seq<nat>, ring: seq<nat>, bufs: seq<Buf>)
    requires |heap| == |next| && Circle(next, ring) && Amounts(heap, ring, bufs)
    ensures Linked(heap, next, ring, bufs)
  {
    forall f
      ensures FacetHolds(f, heap, next, ring, bufs)
    {
      match f {
        case Shape =>
        case Values =>
      }
    }
  }

  lemma OneLinked(b: Buf)
    ensures Linked([b], [0], [0], [b])
  {
    Fold([b], [0], [0], [b]);
  }

  lemma NextOfWrite(heap: seq<Buf>, next: seq<nat>, ring: seq<nat>, p: Pipe)
    requires Linked(heap, next, ring, p.ring) && p.Formed()
    ensures |ring| == |p.ring| && |heap| == |next| && ring[p.w] < |heap| && next[ring[p.w]] < |heap|
    ensures heap[ring[p.w]] == p.ring[p.w]
    ensures next[ring[p.w]] == ring[p.NextW()]
    ensures heap[ring[p.NextW()]] == p.ring[p.NextW()]
    ensures ring[p.w] == ring[p.NextW()] <==> p.w == p.NextW()
  {
    Unfold(heap, next, ring, p.ring);
  }

  lemma FirstOfRead(heap: seq<Buf>, next: seq<nat>, ring: seq<nat>, bufs: seq<Buf>)
    requires Linked(heap, next, ring, bufs)
    ensures |ring| == |bufs| > 0 && ring[0] < |heap| && heap[ring[0]] == bufs[0]
  {
    Unfold(heap, next, ring, bufs);
  }

  lemma ReplacedLinked(heap: seq<Buf>, next: seq<nat>, ring: seq<nat>, bufs: seq<Buf>, k: nat, b: Buf)
    requires Linked(heap, next, ring, bufs) && k < |ring|
    ensures |ring| == |bufs| && ring[k] < |heap|
    ensures Linked(heap[ring[k] := b], next, ring, bufs[k := b])
  {
    Unfold(heap, next, ring, bufs);
    Fold(heap[ring[k] := b], next, ring, bufs[k := b]);
  }

  lemma RotatedLinked(heap: seq<Buf>, next: seq<nat>, ring: seq<nat>, bufs: seq<Buf>)
    requires Linked(heap, next, ring, bufs)
    ensures |ring| == |bufs| > 0 && ring[0] < |next| && next[ring[0]] == (ring[1..] + [ring[0]])[0]
    ensures Linked(heap, next, ring[1..] + [ring[0]], bufs[1..] + [bufs[0]])
  {
    Unfold(heap, next, ring, bufs);
    var r := ring[1..] + [ring[0]];
    assert forall i :: 0 <= i < |r| - 1 ==> r[i] == ring[i + 1];
    Fold(heap, next, r, bufs[1..] + [bufs[0]]);
  }

  lemma InsertedAt<T>(s: seq<T>, k: nat, x: T, i: nat)
    requires k <= |s| && i <= |s|
    ensures Insert(s, k, x)[i] == if i < k then s[i] else if i == k then x else s[i - 1]
  {
  }

  /** A circle again, once ring[k - 1] points to the new buffer and that to what ring[k - 1] pointed to. */
  lemma GraftedCircle(next: seq<nat>, ring: seq<nat>, k: nat)
    requires Circle(next, ring) && 0 < k <= |ring|
    ensures Circle(next[ring[k - 1] := |next|] + [next[ring[k - 1]]], Insert(ring, k, |next|))
  {
    var r, n := Insert(ring, k, |next|), next[ring[k - 1] := |next|] + [next[ring[k - 1]]];
    forall i | 0 <= i < |r|
      ensures r[i] < |n| && n[r[i]] == r[if i + 1 < |r| then i + 1 else 0]
    {
      InsertedAt(ring, k, |next|, i);
      if i + 1 < |r| {
        InsertedAt(ring, k, |next|, i + 1);
      }
    }
    forall i, j | 0 <= i < j < |r|
      ensures r[i] != r[j]
    {
      InsertedAt(ring, k, |next|, i);
      InsertedAt(ring, k, |next|, j);
    }
  }

  lemma GraftedAmounts(heap: seq<Buf>, ring: seq<nat>, k: nat, b: Buf, bufs: seq<Buf>)
    requires Amounts(heap, ring, bufs) && k <= |ring|
    ensures Amounts(heap + [b], Insert(ring, k, |heap|), Insert(bufs, k, b))
  {
    forall i | 0 <= i <= |ring|
      ensures Insert(ring, k, |heap|)[i] <= |heap|
      ensures Insert(bufs, k, b)[i] == (heap + [b])[Insert(ring, k, |heap|)[i]]
    {
      InsertedAt(ring, k, |heap|, i);
      InsertedAt(bufs, k, b, i);
    }
  }

  /** What linking the new buffer in amounts to. */
  lemma Grafted(heap: seq<Buf>, next: seq<nat>, ring: seq<nat>, p: Pipe, area: seq<byte>)
    requires Linked(heap, next, ring, p.ring) && p.Wellformed() && Growable(p, area)
    ensures |ring| == |p.ring| && ring[p.w] < |next| && |heap| == |next|
    ensures var r := Insert(ring, p.w + 1, |heap|);
            && Linked(heap + [Buf(0, 0, p.bufSize - EXTRA_SIZE, area)], next[ring[p.w] := |heap|] + [next[ring[p.w]]],
                      r, Extended(p, area).ring)
            && r[0] == ring[0] && r[p.w + 1] == |heap|
  {
    Unfold(heap, next, ring, p.ring);
    GraftedCircle(next, ring, p.w + 1);
    GraftedAmounts(heap, ring, p.w + 1, Buf(0, 0, p.bufSize - EXTRA_SIZE, area), p.ring);
    Fold(heap + [Buf(0, 0, p.bufSize - EXTRA_SIZE, area)], next[ring[p.w] := |heap|] + [next[ring[p.w]]],
         Insert(ring, p.w + 1, |heap|), Extended(p, area).ring);
  }

  ghost predicate Growable(p: Pipe, area: seq<byte>) {
    AllocFits(p, Some(area)) && p.CanGrow()
  }

  /** The ring with a new empty buffer behind wbuf, which becomes wbuf. */
  ghost function Extended(p: Pipe, area: seq<byte>): (r: Pipe)
    requires p.Wellformed() && Growable(p, area)
    ensures r.Formed()
  {
    p.(ring := Insert(p.ring, p.w + 1, Buf(0, 0, p.bufSize - EXTRA_SIZE, area)),
       w := p.w + 1, bufSize := 2 * p.bufSize % UINT_MOD)
  }
}
