/**
 The event queue of src/sys_evq.c, src/event/evq.c and src/event/timeout.c (POSIX), used by one thread,
 with the stores the code makes.  A pointer to a slot is its event id, NULL is -1; the words of a slot
 serve struct event, struct timeout_queue and struct evq_sync_op in turn.
 */
module EventQueue {
  import opened Lists
  import opened TimeoutLists
  import opened TimeoutState
  import opened EventSlots
  import opened EventState
  import opened EventProcess
  import opened EventExpiry
  import opened EventIds
  import opened EventOps
  import opened EventCalls
  import opened EventRuns

  class EventQueue {
    var mem: Mem
    var flags: seq<Flags>
    var attached: seq<bool>   // ev->evq is set
    var evId: seq<int>

    var evFree: int
    var evReady: int
    var tqHead: int
    var syncOp: int
    var tqMap: map<int, nat>
    const useMap: bool        // tq_map_fn is set
    var now: int
    var nevents: int
    var nbufs: nat            // buffers allocated
    var bufIndex: nat
    var bufNevents: nat

    ghost var v: View

    ghost function Snap(): State
      reads this
    {
      State(mem, flags, attached, evId, evFree, evReady, tqHead, syncOp, tqMap, useMap, now, nevents, nbufs, bufIndex,
            bufNevents, v)
    }

    constructor (mapped: bool, clock: int)
      ensures Snap() == Init(mapped, clock)
    {
      mem, flags, attached, evId := Mem([], [], [], [], [], []), [], [], [];
      evFree, evReady, tqHead, syncOp, tqMap := NULL, NULL, NULL, NULL, map[];
      useMap, now, nevents, nbufs, bufIndex, bufNevents := mapped, clock, 0, 0, 0, 0;
      v := View([], [], [], [], {}, Queues([], map[], map[]));
    }

    // -------------------------------------------------------------- timeout.c

    method TimeoutDel(e: nat)
      requires Whole(Snap()) && IsEvent(Snap(), e)
      modifies this
      ensures Snap() == DelTimeout(old(Snap()), e)
    {
      ghost var s := Snap();
      Shape(s);
      var tq := mem.w4[e];
      if tq == NULL {
        return;
      }
      if mem.w2[e] == NULL && mem.w3[e] == NULL {
        DropsQueue(s, e);
        FreeQueue(e, tq);
      } else {
        LeavesQueue(s, e);
        UnhookEvent(e, tq);
      }
    }

    /** The queue of the last event is taken out of the queue list and the map and put on the free list. */
    method FreeQueue(e: nat, tq: nat)
      requires Droppable(Snap(), e) && tq == mem.w4[e]
      modifies this
      ensures Snap() == DropQueue(old(Snap()), e)
    {
      ghost var s := Snap();
      mem := mem.(w4 := mem.w4[e := NULL]);
      UnlistQueue(tq);
      FreeSlotOf(tq);
      v := DropQueue(s, e).v;
    }

    /** A queue slot goes to the free list and out of the map. */
    method FreeSlotOf(tq: nat)
      requires mem.Sized(|mem.w0|) && tq < |mem.w0|
      modifies `mem, `evFree, `tqMap
      ensures mem == old(mem.(w0 := mem.w0[tq := evFree])) && evFree == tq
      ensures tqMap == if useMap then old(tqMap) - {old(mem).w4[tq]} else old(tqMap)
    {
      mem := mem.(w0 := mem.w0[tq := evFree]);
      evFree := tq;
      if useMap {
        tqMap := tqMap - {mem.w4[tq]};
      }
    }

    /** Joins the neighbours of an event, or its queue's ends to them. */
    method UnhookEvent(e: nat, tq: nat)
      requires Leavable(Snap(), e) && tq == mem.w4[e]
      modifies this
      ensures Snap() == LeaveQueue(old(Snap()), e)
    {
      ghost var s := Snap();
      var prev, next := mem.w2[e], mem.w3[e];
      mem := mem.(w4 := mem.w4[e := NULL]);
      JoinEnds(tq, prev, next);
      v := LeaveQueue(s, e).v;
    }

    method JoinEnds(tq: nat, prev: int, next: int)
      requires mem.Sized(|mem.w0|) && tq < |mem.w0| && NULL <= prev < |mem.w0| && NULL <= next < |mem.w0|
      modifies `mem
      ensures mem == Unhook(old(mem), tq, prev, next)
    {
      if prev != NULL {
        mem := mem.(w3 := mem.w3[prev := next]);
      } else {
        mem := mem.(w2 := mem.w2[tq := next]);
      }
      if next != NULL {
        mem := mem.(w2 := mem.w2[next := prev]);
      } else {
        mem := mem.(w3 := mem.w3[tq := prev]);
      }
    }

    /** Joins the neighbours of a queue in the queue list. */
    method UnlistQueue(tq: nat)
      requires mem.Sized(|mem.w0|) && tq < |mem.w0|
      requires NULL <= mem.w0[tq] < |mem.w0| && NULL <= mem.w1[tq] < |mem.w0|
      modifies `mem, `tqHead
      ensures mem == Unlist(old(mem), old(mem.w0[tq]), old(mem.w1[tq]))
      ensures tqHead == if old(mem.w0[tq]) == NULL then old(mem.w1[tq]) else old(tqHead)
    {
      var tqPrev, tqNext := mem.w0[tq], mem.w1[tq];
      if tqPrev != NULL {
        mem := mem.(w1 := mem.w1[tqPrev := tqNext]);
      } else {
        tqHead := tqNext;
      }
      if tqNext != NULL {
        mem := mem.(w0 := mem.w0[tqNext := tqPrev]);
      }
    }

    /** The queue of `ms`, or the neighbours of the place for it: by the map, or along the sorted list. */
    method FindQueue(ms: int) returns (tqPrev: int, tq: int)
      requires Whole(Snap())
      ensures Within(v.q.tqs, |mem.w4|) && tqPrev < |mem.w4| && NULL <= tq < |mem.w4|
      ensures tq != NULL && mem.w4[tq] == ms <==> ms in v.q.idx
      ensures ms in v.q.idx ==> tq == v.q.idx[ms]
      ensures ms !in v.q.idx ==> tqPrev == At(v.q.tqs, Place(Snap(), ms) - 1) && tq == At(v.q.tqs, Place(Snap(), ms))
    {
      Facts(Snap());
      tqPrev, tq := NULL, tqHead;
      if useMap {
        if ms in tqMap {
          tqPrev := tqMap[ms];
          tq := tqPrev;
        }
        FoundInMap(Snap(), ms);
      } else {
        tqPrev, tq := ScanList(ms);
        FoundInList(Snap(), ms);
      }
    }

    /** Along the sorted list up to the first queue whose timeout is not below `ms`. */
    method ScanList(ms: int) returns (tqPrev: int, tq: int)
      requires Whole(Snap()) && !useMap
      ensures Within(v.q.tqs, |mem.w4|) && NULL <= tqPrev < |mem.w4| && NULL <= tq < |mem.w4|
      ensures tqPrev == At(v.q.tqs, Place(Snap(), ms) - 1) && tq == At(v.q.tqs, Place(Snap(), ms))
    {
      assert Holds(Clause.QueueList, Snap()) && Holds(Clause.Sizes, Snap());
      tqPrev, tq := NULL, tqHead;
      ghost var i: int := 0;
      while tq != NULL && mem.w4[tq] < ms
        invariant 0 <= i <= |v.q.tqs| && tqPrev == At(v.q.tqs, i - 1) && tq == At(v.q.tqs, i)
        invariant forall j :: 0 <= j < i ==> mem.w4[v.q.tqs[j]] < ms
        decreases |v.q.tqs| - i
      {
        AtIsPointer(v.q.tqs, i);
        assert mem.w1[v.q.tqs[i]] == At(v.q.tqs, i + 1);
        tqPrev, tq := tq, mem.w1[tq];
        i := i + 1;
      }
      AtIsPointer(v.q.tqs, i);
      AtIsPointer(v.q.tqs, i - 1);
      BelowIs(mem.w4, v.q.tqs, ms, i);
    }

    /** timeout_add. */
    method TimeoutAdd(e: nat, ms: int) returns (ok: bool)
      requires Whole(Snap()) && IsEvent(Snap(), e) && mem.Sized(|v.role|) && mem.w4[e] == NULL
      requires e < |attached| && attached[e]
      modifies this
      ensures (Snap(), ok) == AddTimeout(old(Snap()), e, ms)
    {
      ghost var s := Snap();
      var tqPrev, tq := FindQueue(ms);
      if tq == NULL || mem.w4[tq] != ms {
        FreeWhenAdding(s);
        if evFree == NULL {
          return false;
        }
        Opens(s, e, ms);
        OpenQueueAt(e, ms, tqPrev, tq);
      } else {
        Joins(s, e, ms);
        AppendEvent(e, tq, ms);
      }
      ok := true;
    }

    /** The head of the free list becomes a queue between `tqPrev` and `tq`, with one event. */
    method OpenQueueAt(e: nat, ms: int, tqPrev: int, tq: int)
      requires Openable(Snap(), e)
      requires tqPrev == At(v.q.tqs, Place(Snap(), ms) - 1) && tq == At(v.q.tqs, Place(Snap(), ms))
      modifies this
      ensures Snap() == OpenQueue(old(Snap()), e, ms)
    {
      ghost var s' := Opened(Snap(), e, ms, tqPrev, tq);
      var q: nat := evFree;
      evFree := mem.w0[q];
      BuildQueue(q, e, ms, tqPrev, tq);
      if useMap {
        tqMap := tqMap[ms := q];
      }
      v := s'.v;
    }

    /** The stores of a new queue. */
    method BuildQueue(q: nat, e: nat, ms: int, tqPrev: int, tq: int)
      requires mem.Sized(|mem.w0|) && q < |mem.w0| && e < |mem.w0| && q != tqPrev && q != tq
      requires NULL <= tqPrev < |mem.w0| && NULL <= tq < |mem.w0|
      modifies `mem, `tqHead
      ensures mem == NewQueue(old(mem), q, tqPrev, tq, ms, e, now + ms)
      ensures tqHead == if tqPrev == NULL then q else old(tqHead)
    {
      InsertQueue(q, tqPrev, tq);
      FillQueue(q, e, ms);
    }

    method FillQueue(q: nat, e: nat, ms: int)
      requires mem.Sized(|mem.w0|) && q < |mem.w0| && e < |mem.w0|
      modifies `mem
      ensures mem == old(mem).(w2 := old(mem.w2)[q := e][e := NULL], w3 := old(mem.w3)[q := e][e := NULL],
                               w4 := old(mem.w4)[q := ms][e := q], due := old(mem.due)[e := now + ms])
    {
      mem := mem.(w4 := mem.w4[q := ms], w2 := mem.w2[q := e]);
      mem := mem.(w2 := mem.w2[e := NULL]);
      mem := mem.(w3 := mem.w3[q := e]);
      mem := mem.(w3 := mem.w3[e := NULL], w4 := mem.w4[e := q], due := mem.due[e := now + ms]);
    }

    method InsertQueue(q: nat, tqPrev: int, tq: int)
      requires mem.Sized(|mem.w0|) && q < |mem.w0| && q != tqPrev && q != tq
      requires NULL <= tqPrev < |mem.w0| && NULL <= tq < |mem.w0|
      modifies `mem, `tqHead
      ensures mem == old(mem).(w0 := Unlink(old(mem.w0)[q := tqPrev], tq, q), w1 := Unlink(old(mem.w1)[q := tq], tqPrev, q))
      ensures tqHead == if tqPrev == NULL then q else old(tqHead)
    {
      mem := mem.(w1 := mem.w1[q := tq]);
      if tq != NULL {
        mem := mem.(w0 := mem.w0[tq := q]);
      }
      mem := mem.(w0 := mem.w0[q := tqPrev]);
      assert mem.w0 == Unlink(old(mem.w0)[q := tqPrev], tq, q);
      if tqPrev != NULL {
        mem := mem.(w1 := mem.w1[tqPrev := q]);
      } else {
        tqHead := q;
      }
    }

    /** The event becomes the tail of a queue. */
    method AppendEvent(e: nat, tq: nat, ms: int)
      requires Joinable(Snap(), e, ms) && tq == v.q.idx[ms]
      modifies this
      ensures Snap() == JoinQueue(old(Snap()), e, ms)
    {
      ghost var s := Snap();
      var tail: nat := mem.w3[tq];
      mem := mem.(w2 := mem.w2[e := tail], w3 := mem.w3[tail := e]);
      mem := mem.(w3 := mem.w3[tq := e]);
      mem := mem.(w3 := mem.w3[e := NULL], w4 := mem.w4[e := tq], due := mem.due[e := now + ms]);
      v := JoinQueue(s, e, ms).v;
    }

    /** timeout_reset. */
    method TimeoutReset(e: nat)
      requires Whole(Snap()) && IsEvent(Snap(), e) && mem.Sized(|v.role|) && mem.w4[e] != NULL
      modifies this
      ensures Snap() == ResetTimeout(old(Snap()), e)
    {
      Resets(Snap(), e);
      Requeue(e);
    }

    method Requeue(e: nat)
      requires Movable(Snap(), e)
      modifies this
      ensures Snap() == Reset(old(Snap()), e)
    {
      ghost var s := Snap();
      RearmEvent(e, mem.w4[e]);
      v := Reset(s, e).v;
    }

    /** The new time, and the place at the tail. */
    method RearmEvent(e: nat, tq: nat)
      requires Movable(Snap(), e) && tq == mem.w4[e]
      modifies `mem
      ensures mem == Reset(old(Snap()), e).mem
    {
      ghost var m := mem;
      mem := mem.(due := mem.due[e := now + mem.w4[tq]]);
      if mem.w3[e] != NULL {
        RearmedFirst(m, tq, e, mem.w2[e], mem.w3[e], now + mem.w4[tq]);
        MoveToTail(e, tq);
      }
    }

    method MoveToTail(e: nat, tq: nat)
      requires mem.Sized(|mem.w0|) && e < |mem.w0| && tq < |mem.w0| && e != tq && mem.w4[e] == tq
      requires NULL <= mem.w2[e] < |mem.w0| && 0 <= mem.w3[e] < |mem.w0| && 0 <= mem.w3[tq] < |mem.w0|
      requires mem.w3[tq] != e && mem.w3[tq] != tq && mem.w2[e] != e && mem.w2[e] != tq && mem.w3[e] != e && mem.w3[e] != tq
      modifies `mem
      ensures 0 <= Unhook(old(mem), tq, old(mem.w2[e]), old(mem.w3[e])).w3[tq] < |old(mem).w0|
      ensures mem == Append(Unhook(old(mem), tq, old(mem.w2[e]), old(mem.w3[e])), tq, e, old(mem.due[e]))
    {
      ghost var m := mem;
      var prev, next: nat := mem.w2[e], mem.w3[e];
      if prev != NULL {
        mem := mem.(w3 := mem.w3[prev := next]);
      } else {
        mem := mem.(w2 := mem.w2[tq := next]);
      }
      mem := mem.(w2 := mem.w2[next := prev]);
      assert mem == Unhook(m, tq, prev, next);
      mem := mem.(w3 := mem.w3[e := NULL], w2 := mem.w2[e := mem.w3[tq]]);
      var tail: nat := mem.w3[tq];
      mem := mem.(w3 := mem.w3[tail := e]);
      mem := mem.(w3 := mem.w3[tq := e]);
      ghost var r := Append(Unhook(m, tq, prev, next), tq, e, m.due[e]);
      assert mem.w2 == r.w2 && mem.w3 == r.w3 && mem.w4 == r.w4 && mem.due == r.due;
    }

    /** timeout_get; `limit` itself when there is no queue. */
    method TimeoutGet(limit: int) returns (d: int)
      requires Whole(Snap())
      ensures d == if v.q.tqs == [] then limit else WaitTime(Snap(), limit)
    {
      HeadsAreEvents(Snap());
      HeadOfList(Snap());
      if tqHead == NULL {
        return limit;
      }
      var tq := tqHead;
      var min := if limit == TIMEOUT_INFINITE then mem.due[mem.w2[tq]] else limit + now;
      ghost var i, first := 0, min;
      while tq != NULL
        invariant 0 <= i <= |v.q.tqs| && tq == At(v.q.tqs, i)
        invariant MinHead(mem, v.q.tqs, i, min) == MinHead(mem, v.q.tqs, 0, first)
        decreases |v.q.tqs| - i
      {
        var t := mem.due[mem.w2[tq]];
        if t < min {
          min := t;
        }
        NextQueue(Snap(), i);
        tq, i := mem.w1[tq], i + 1;
      }
      var wait := min - now;
      d := if wait < 0 then 0 else if wait > MAX_TIMEOUT then MAX_TIMEOUT else wait;
    }

    /** timeout_process, no event of a queue being ready already. */
    method TimeoutProcess()
      requires Whole(Snap()) && AllCalm(Snap())
      modifies this
      ensures Snap() == Process(old(Snap()))
    {
      ghost var s := Snap();
      ProcessStarts(s);
      var tq := tqHead;
      ghost var i := 0;
      while tq != NULL
        invariant Processing(s, Snap(), i, tq)
        decreases |v.q.tqs| - i
      {
        tq := ProcessOne(tq, s, i);
        i := i + 1;
      }
      ProcessEnds(s, Snap(), i, tq);
    }

    /** One round of the loop over the queues. */
    method ProcessOne(tq: nat, ghost s: State, ghost i: nat) returns (next: int)
      requires Inv(s) && AllCalm(s) && Processing(s, Snap(), i, tq)
      modifies this
      ensures Processing(s, Snap(), i + 1, next) && |v.q.tqs| == |old(v.q.tqs)| > i
    {
      ghost var ms := ProcessStep(s, Snap(), i, tq);
      FireQueueAt(tq, ms);
      next := mem.w1[tq];
    }

    /** The due events of one queue are pushed on the ready list, and the queue is turned round behind them. */
    method FireQueueAt(tq: nat, ghost ms: int)
      requires Linked(Snap(), ms) && tq == v.q.idx[ms]
      modifies this
      ensures Snap() == FireState(old(Snap()), ms)
    {
      ghost var s := Snap();
      var evHead: nat := mem.w2[tq];
      if mem.due[evHead] < now + MIN_TIMEOUT {
        FireSome(tq, evHead, ms);
      } else {
        FiredNone(s, ms);
      }
      v := FireState(s, ms).v;
    }

    method FireSome(tq: nat, evHead: nat, ghost ms: int)
      requires Linked(Snap(), ms) && tq == v.q.idx[ms] && evHead == mem.w2[tq] && mem.due[evHead] < now + MIN_TIMEOUT
      modifies `mem, `flags, `evReady
      ensures Snap() == FireState(old(Snap()), ms).(v := v)
    {
      ghost var s, es := Snap(), v.q.part[ms];
      var ev, k := PushRipe(evHead, now + mem.w4[tq], es);
      FiredSome(s, Snap(), ms, tq, k);
      if ev != NULL {
        Recycle(tq, evHead, ev);
      }
    }

    /** The inner loop: returns the first event that is not due. */
    method PushRipe(evHead: nat, timeoutAt: int, ghost es: seq<nat>) returns (ev: int, ghost k: nat)
      requires Listed(Snap(), es) && evHead == es[0] && mem.due[evHead] < now + MIN_TIMEOUT
      modifies `mem, `flags, `evReady
      ensures Listed(old(Snap()), es) && k == Ripe(old(mem.due), es, now + MIN_TIMEOUT) && 0 < k
      ensures ev == At(es, k) && Progress(old(Snap()), Snap(), es, timeoutAt, k)
    {
      ghost var s := Snap();
      ghost var i := 0;
      ev := evHead;
      PushingStarts(s, es, timeoutAt, ev);
      while ev != NULL && mem.due[ev] < now + MIN_TIMEOUT
        invariant RipeSoFar(s, Snap(), es, timeoutAt, i, ev)
        invariant ev != NULL ==> 0 <= ev < |mem.due|
        decreases |es| - i
      {
        ghost var t := Snap();
        PushingNow(s, t, es, timeoutAt, i, ev);
        PushOne(ev, timeoutAt);
        PushingStep(s, t, es, timeoutAt, i, ev);
        ev := mem.w3[ev];
        i := i + 1;
      }
      k := PushingEnds(s, Snap(), es, timeoutAt, i, ev);
    }

    method PushOne(ev: nat, timeoutAt: int)
      requires mem.Sized(|flags|) && ev < |flags|
      modifies `mem, `flags, `evReady
      ensures Snap() == PushedOne(old(Snap()), ev, timeoutAt)
    {
      flags := flags[ev := flags[ev].(active := true, timeoutRes := true)];
      mem := mem.(due := mem.due[ev := timeoutAt]);
      mem := mem.(w0 := mem.w0[ev := evReady]);
      evReady := ev;
    }

    /** The tail is joined to the head, and the queue cut open before `ev`. */
    method Recycle(tq: nat, evHead: nat, ev: nat)
      requires Cuttable(Snap(), tq, evHead, ev)
      modifies `mem
      ensures Snap() == Cut(old(Snap()), tq, evHead, ev)
    {
      mem := mem.(w2 := mem.w2[tq := ev]);
      mem := mem.(w2 := mem.w2[ev := NULL]);
      mem := mem.(w3 := mem.w3[mem.w3[tq] := evHead]);
      mem := mem.(w2 := mem.w2[evHead := mem.w3[tq]]);
      mem := mem.(w3 := mem.w3[tq := evReady]);
      mem := mem.(w3 := mem.w3[evReady := NULL]);
    }

    // -------------------------------------------------------------- slots

    /** levq_new_event; fails when there are too many events. */
    method NewEvent() returns (ok: bool, ev: nat)
      requires Whole(Snap())
      modifies this
      ensures ok <==> CanAlloc(old(Snap()))
      ensures if ok then (Snap(), ev) == Alloc(old(Snap())) else Snap() == old(Snap())
    {
      FreeEmptyIff(Snap());
      ev := 0;
      if evFree != NULL {
        ev := evFree;
        TakeFree(ev);
      } else {
        var room := RoomForFresh();
        if !room {
          return false, ev;
        }
        ev := CarveFresh();
      }
      ok := true;
    }

    method TakeFree(ev: nat)
      requires FreeUsable(Snap()) && ev == evFree == v.free[0]
      modifies this
      ensures Snap() == Reuse(old(Snap()))
    {
      ghost var s := Snap();
      evFree := mem.w0[ev];
      mem := Cleared(mem, ev);
      flags, attached := flags[ev := NO_FLAGS], attached[ev := false];
      v := Reuse(s).v;
    }

    method RoomForFresh() returns (room: bool)
      ensures room <==> CanCarve(Snap())
    {
      room := bufIndex < nbufs || bufIndex + BUF_IDX <= BUF_MAX;
    }

    /** The next slot of the current buffer, which is allocated first if need be. */
    method CarveFresh() returns (ev: nat)
      requires Buffered(Snap()) && CanCarve(Snap())
      modifies this
      ensures Snap() == Carve(old(Snap())) && ev == old(|v.role|)
    {
      ghost var s := Snap();
      var n, nmax := bufNevents, BufSize(bufIndex);
      FreshIdIsMasked(bufIndex, n);
      CountSlot(nmax);
      ev := n + FirstId(nmax);
      ExtendSlots(ev);
      v := Carve(s).v;
    }

    /** Another slot, cleared, with its id. */
    method ExtendSlots(ev: nat)
      modifies `mem, `flags, `attached, `evId
      ensures mem == Widened(old(mem))
      ensures flags == old(flags) + [NO_FLAGS] && attached == old(attached) + [false] && evId == old(evId) + [ev]
    {
      mem := Widened(mem);
      flags, attached, evId := flags + [NO_FLAGS], attached + [false], evId + [ev];
    }

    /** The counters move on by one slot. */
    method CountSlot(nmax: nat)
      requires nmax == BufSize(bufIndex)
      modifies `bufIndex, `bufNevents, `nbufs
      ensures nbufs == old(if bufIndex < nbufs then nbufs else nbufs + 1)
      ensures (bufIndex, bufNevents) == old(if bufIndex < nbufs then NextSlot(bufIndex, bufNevents) else (bufIndex, 1))
    {
      if bufIndex < nbufs {
        bufNevents := bufNevents + 1;
        if bufNevents >= nmax {
          bufNevents, bufIndex := 0, bufIndex + 1;
        }
      } else {
        nbufs, bufNevents := nbufs + 1, 1;
      }
    }

    /** levq_free_event. */
    method FreeEvent(ev: nat)
      requires mem.Sized(|v.role|) && ev < |v.role|
      modifies this
      ensures Snap() == Release(old(Snap()), ev)
    {
      ghost var s := Snap();
      mem := mem.(w0 := mem.w0[ev := evFree]);
      evFree := ev;
      v := Release(s, ev).v;
    }

    /** The place kept for a timeout queue: an empty free list gets a slot. */
    method ReserveQueue() returns (ok: bool)
      requires Whole(Snap())
      modifies this
      ensures (Snap(), ok) == Reserve(old(Snap()))
    {
      FreeEmptyIff(Snap());
      if evFree != NULL {
        return true;
      }
      ghost var s := Snap();
      var ev: nat;
      ok, ev := NewEvent();
      if ok {
        AllocKeeps(s);
        FreeEvent(ev);
      }
    }

    // -------------------------------------------------------------- evq.c

    /** evq_set_timeout. */
    method SetTimeout(e: nat, ms: int) returns (ok: bool)
      requires Whole(Snap()) && IsEvent(Snap(), e) && e < |attached| && attached[e]
      modifies this
      ensures (Snap(), ok) == EventCalls.SetTimeout(old(Snap()), e, ms)
    {
      ghost var s := Snap();
      Shape(s);
      var tq := mem.w4[e];
      if tq != NULL {
        QueueSlotIsNoEvent(s, e);
        if mem.w4[tq] == ms {
          TimeoutReset(e);
          return true;
        }
      }
      TimeoutDel(e);
      if ms == TIMEOUT_INFINITE {
        return true;
      }
      ok := TimeoutAdd(e, ms);
    }

    /** evq_del. */
    method EvqDel(e: nat)
      requires Whole(Snap()) && IsEvent(Snap(), e) && e < |attached| && attached[e]
      modifies this
      ensures Snap() == EventCalls.EvqDel(old(Snap()), e)
    {
      TimeoutDel(e);
      ghost var s := Snap();
      Shape(s);
      attached, nevents := attached[e := false], nevents - 1;
      v := Detach(s, e).v;
    }

    /**
     evq_process_active and the part of evq_wait that repeats it.  The event is linked before its deletion
     or its new timeout, not after: neither looks at the ready list.
     */
    method ProcessActive(e: nat)
      requires Whole(Snap()) && IsEvent(Snap(), e) && e < |attached| && attached[e]
      modifies this
      ensures Snap() == Activate(old(Snap()), e)
    {
      ghost var s := Snap();
      Shape(s);
      var fl := flags[e].(readRes := true);
      if fl.active {
        flags := flags[e := fl];
        return;
      }
      PushEvent(e, fl.(active := true));
      Pushing(s, e, fl.(active := true));
      if fl.oneshot {
        EvqDel(e);
      } else if mem.w4[e] != NULL && !fl.manual {
        TimeoutReset(e);
      }
    }

    method PushEvent(e: nat, fl: Flags)
      requires mem.Sized(|v.role|) && e < |v.role| == |flags|
      modifies this
      ensures Snap() == Enqueue(old(Snap()), e, fl)
    {
      ghost var s := Snap();
      flags := flags[e := fl];
      mem := mem.(w0 := mem.w0[e := evReady]);
      evReady := e;
      v := Enqueue(s, e, fl).v;
    }

    // -------------------------------------------------------------- sys_evq.c

    /** levq_add and levq_add_timer; the upset comes once the slot is taken. */
    method Add(a: Request) returns (r: AddResult)
      requires Whole(Snap()) && Proper(a)
      modifies this
      ensures (Snap(), r) == EventCalls.Add(old(Snap()), a)
    {
      ghost var s := Snap();
      var ok, ev := NewEvent();
      if !ok {
        return TooMany;
      }
      if a.upset != Smooth {
        return Raised;
      }
      AllocKeeps(s);
      ghost var s1 := Snap();
      TakenIsLoose(s1, ev);
      ok := ReserveQueue();
      if !ok {
        return TooMany;
      }
      PlaceEvent(ev, a.fl, a.ms, a.polled, s1);
      r := if a.fl.timer || a.polled then Added(ev) else Failed;
    }

    /** The end of levq_add once the slots are there. */
    method PlaceEvent(ev: nat, fl: Flags, ms: int, polled: bool, ghost s1: State)
      requires Whole(s1) && IsTaken(s1, ev) && !fl.active && !fl.deleted && Snap() == Reserve(s1).0
      requires s1.mem.Sized(|s1.v.role|) && s1.mem.w4[ev] == NULL
      modifies this
      ensures Snap() == Placed(s1, ev, fl, ms, polled)
    {
      ghost var s2 := Snap();
      TakenIsLoose(s1, ev);
      Shape(s2);
      if fl.timer || polled {
        AttachKeeps(s2, ev, fl);
        AttachEvent(ev, fl);
        var done := SetTimeout(ev, ms);
      } else {
        FreeEvent(ev);
      }
    }

    method AttachEvent(ev: nat, fl: Flags)
      requires ev < |flags| == |attached| == |v.role|
      modifies this
      ensures Snap() == Attach(old(Snap()), ev, fl)
    {
      ghost var s := Snap();
      flags, attached, nevents := flags[ev := fl], attached[ev := true], nevents + 1;
      v := Attach(s, ev, fl).v;
    }

    /** levq_del. */
    method Delete(e: nat)
      requires Whole(Snap()) && IsEvent(Snap(), e)
      modifies this
      ensures Snap() == EventCalls.Delete(old(Snap()), e)
    {
      ghost var s := Snap();
      Deleting(s, e);
      if attached[e] {
        EvqDel(e);
      }
      if !flags[e].active {
        FreeEvent(e);
      }
      flags := flags[e := flags[e].(deleted := true)];
    }

    /** One round of the loop of sys_evq_loop over the ready list. */
    method HandleReady() returns (e: nat)
      requires Whole(Snap()) && v.ready != []
      modifies this
      ensures e == old(v.ready[0]) && Snap() == Drain(old(Snap()))
    {
      ghost var s := Snap();
      DequeueKeeps(s);
      e := evReady;
      var fl := flags[e];
      flags := flags[e := Unmarked(fl)];
      evReady := mem.w0[e];
      v := Dequeue(s).v;
      Draining(s, Snap());
      if fl.deleted {
        FreeEvent(e);
      } else {
        if fl.oneshot && attached[e] {
          EvqDel(e);
        }
        if !attached[e] {
          FreeEvent(e);
        }
      }
    }

    /** levq_sync_call: a new pending operation of coroutine `co`. */
    method SyncCall(co: nat) returns (ok: bool)
      requires Whole(Snap())
      modifies this
      ensures ok <==> CanAlloc(old(Snap()))
      ensures Snap() == Do(old(Snap()), SyncOp(co))
    {
      ghost var s := Snap();
      var op: nat;
      ok, op := NewEvent();
      if ok {
        AllocKeeps(s);
        PushOpKeeps(Snap(), op, co);
        LinkOp(op, co);
      }
    }

    method LinkOp(op: nat, co: nat)
      requires mem.Sized(|v.role|) && op < |v.role|
      modifies this
      ensures Snap() == PushOp(old(Snap()), op, co)
    {
      ghost var s := Snap();
      mem := mem.(w1 := mem.w1[op := co]);
      mem := mem.(w0 := mem.w0[op := syncOp]);
      syncOp := op;
      v := PushOp(s, op, co).v;
    }

    /** sys_evq_loop and levq_sync_process; `raised` tells of an error that ends the loop. */
    method SyncProcess(calls: seq<Called>) returns (raised: bool)
      requires Whole(Snap())
      modifies this
      ensures Snap() == EventCalls.SyncProcess(old(Snap()), calls) && raised == SyncCut(old(Snap()), calls)
    {
      ghost var s := Snap();
      if syncOp == NULL {
        NothingPending(s);
        return false;
      }
      var op, left := syncOp, calls;
      SomePending(s);
      syncOp := NULL;
      v := DetachOps(s).v;
      ghost var goal, cut, rest := EventCalls.SyncProcess(s, calls), SyncCut(s, calls), s.v.sync;
      SyncStarts(s, Snap(), calls, op);
      raised := false;
      while op != NULL && !raised
        invariant if raised then Snap() == goal && cut else SyncGoing(goal, cut, Snap(), rest, left, op)
        decreases |rest|
      {
        raised, op, left := SyncOne(op, left, goal, cut, rest);
        rest := rest[1..];
      }
      if !raised {
        SyncEnds(goal, cut, Snap(), rest, left, op);
      }
    }

    /** One detached operation: its slot is freed before the call. */
    method SyncOne(op: nat, calls: seq<Called>, ghost goal: State, ghost cut: bool, ghost rest: seq<nat>)
        returns (raised: bool, next: int, left: seq<Called>)
      requires SyncGoing(goal, cut, Snap(), rest, calls, op)
      modifies this
      ensures rest != [] && left == OtherCalls(calls)
      ensures if raised then Snap() == goal && cut else SyncGoing(goal, cut, Snap(), rest[1..], left, next)
    {
      ghost var s := Snap();
      SyncStep(goal, cut, s, rest, calls, op);
      next := mem.w0[op];
      FreeEvent(op);
      left := OtherCalls(calls);
      raised := false;
      match FirstCall(calls) {
        case Cancelled =>
        case Fails => raised := true;
        case Adds(a) =>
          if Proper(a) {
            var r := Add(a);
            raised := Raises(r);
          }
      }
      if !raised {
        SyncGoesOn(goal, cut, s, rest, calls, op);
      }
    }
  }

  /** Whether an error cuts off levq_sync_process. */
  ghost predicate SyncCut(s: State, calls: seq<Called>)
    requires Whole(s)
  {
    s.v.sync != [] && (DetachOpsKeeps(s); SyncRaises(DetachOps(s), s.v.sync, calls))
  }

  lemma NothingPending(s: State)
    requires Whole(s) && s.syncOp == NULL
    ensures s.v.sync == []
  {
    assert Holds(Chains, s);
  }

  lemma SomePending(s: State)
    requires Whole(s) && s.syncOp != NULL
    ensures s.v.sync != []
  {
    assert Holds(Chains, s);
  }

  /** The loop has come to `op`, the first of the operations `rest`; it will end in `goal`. */
  ghost predicate SyncGoing(goal: State, cut: bool, s: State, rest: seq<nat>, calls: seq<Called>, op: int) {
    exists n: nat :: n == |rest| && SyncAt(goal, cut, s, rest, calls, op, n)
  }

  ghost predicate SyncAt(goal: State, cut: bool, s: State, rest: seq<nat>, calls: seq<Called>, op: int, n: nat) {
    |rest| == n && Whole(s) && Held(s, rest) && Chain(s.mem.w0, op, rest) && SyncFrom(s, rest, calls) == goal
    && cut == SyncRaises(s, rest, calls)
  }

  lemma SyncStarts(s: State, s': State, calls: seq<Called>, op: int)
    requires Whole(s) && s.v.sync != [] && op == s.syncOp && s' == DetachOps(s)
    ensures SyncGoing(EventCalls.SyncProcess(s, calls), SyncCut(s, calls), s', s.v.sync, calls, op)
  {
    DetachOpsKeeps(s);
    assert Holds(Chains, s);
    assert SyncAt(EventCalls.SyncProcess(s, calls), SyncCut(s, calls), s', s.v.sync, calls, op, |s.v.sync|);
  }

  lemma SyncEnds(goal: State, cut: bool, s: State, rest: seq<nat>, calls: seq<Called>, op: int)
    requires SyncGoing(goal, cut, s, rest, calls, op) && op == NULL
    ensures s == goal && !cut
  {
  }

  /** The state after the call of the first operation. */
  ghost function AfterCall(s1: State, c: Called): State
    requires Whole(s1)
  {
    if c.Adds? then AddIf(s1, c.a).0 else s1
  }

  lemma SyncStep(goal: State, cut: bool, s: State, rest: seq<nat>, calls: seq<Called>, op: nat)
    requires SyncGoing(goal, cut, s, rest, calls, op)
    ensures rest != [] && op == rest[0] && s.mem.Sized(|s.v.role|) && op < |s.v.role| && op < |s.mem.w0|
    ensures Whole(Release(s, op))
    ensures var c, s1 := FirstCall(calls), Release(s, op);
            c.Fails? || (c.Adds? && Raises(AddIf(s1, c.a).1)) ==> AfterCall(s1, c) == goal && cut
  {
    ReleaseHeld(s, rest);
  }

  lemma SyncGoesOn(goal: State, cut: bool, s: State, rest: seq<nat>, calls: seq<Called>, op: nat)
    requires SyncGoing(goal, cut, s, rest, calls, op) && rest != [] && op == rest[0]
    requires s.mem.Sized(|s.v.role|) && op < |s.v.role| && op < |s.mem.w0| && Whole(Release(s, op))
    requires var c := FirstCall(calls); !c.Fails? && (c.Adds? ==> !Raises(AddIf(Release(s, op), c.a).1))
    ensures SyncGoing(goal, cut, AfterCall(Release(s, op), FirstCall(calls)), rest[1..], OtherCalls(calls), s.mem.w0[op])
  {
    ReleaseHeld(s, rest);
    var s1, c := Release(s, op), FirstCall(calls);
    var s2, tail := AfterCall(s1, c), rest[1..];
    ChainPop(s.mem.w0, op, rest);
    ChainKeep(s.mem.w0, s.mem.w0[op], tail, op, s.evFree);
    if c.Adds? {
      AddHeld(s1, tail, c.a);
      AddChain(s1, c.a, s.mem.w0[op], tail);
    }
    assert SyncAt(goal, cut, s2, tail, OtherCalls(calls), s.mem.w0[op], |tail|);
  }

  /** levq_add does not touch the links of detached operations. */
  lemma AddChain(s: State, a: Request, head: int, rest: seq<nat>)
    requires Whole(s) && Held(s, rest) && Chain(s.mem.w0, head, rest)
    ensures Chain(AddIf(s, a).0.mem.w0, head, rest)
  {
    var s' := AddIf(s, a).0;
    forall i | 0 <= i < |rest|
      ensures rest[i] < |s'.mem.w0| && s'.mem.w0[rest[i]] == At(rest, i + 1)
    {
      assert rest[i] in rest && s.mem.w0[rest[i]] == At(rest, i + 1);
      AddLinks(s, a, rest[i]);
    }
  }

  lemma Pushing(s: State, e: nat, fl: Flags)
    requires Whole(s) && IsEvent(s, e) && e < |s.flags| && e < |s.attached| && s.attached[e] && !s.flags[e].active
    requires fl == s.flags[e].(readRes := true, active := true)
    ensures s.mem.Sized(|s.v.role|) && e < |s.v.role| == |s.flags|
    ensures var s1 := Enqueue(s, e, fl);
            && Whole(s1) && IsEvent(s1, e) && s1.mem.Sized(|s1.v.role|)
            && Activate(s, e) == if fl.oneshot then EventCalls.EvqDel(s1, e)
                                 else if s1.mem.w4[e] != NULL && !fl.manual then ResetTimeout(s1, e) else s1
  {
    assert Holds(Slots, s);
    assert SlotOk(e, s.v, s.mem.w4, s.flags, s.attached, s.evId);
    EnqueueKeeps(s, e, fl);
    Shape(Enqueue(s, e, fl));
  }

  lemma Deleting(s: State, e: nat)
    requires Whole(s) && IsEvent(s, e)
    ensures s.mem.Sized(|s.v.role|) && |s.flags| == |s.attached| == |s.v.role|
    ensures var s1 := if s.attached[e] then EventCalls.EvqDel(s, e) else s;
            && s1.mem.Sized(|s1.v.role|) && s1.flags == s.flags && |s1.v.role| == |s.v.role|
            && EventCalls.Delete(s, e) == MarkDeleted(if s.flags[e].active then s1 else Release(s1, e), e)
  {
    Shape(s);
    assert Holds(Slots, s);
    assert SlotOk(e, s.v, s.mem.w4, s.flags, s.attached, s.evId);
    Shape(if s.attached[e] then EventCalls.EvqDel(s, e) else s);
  }

  lemma Draining(s: State, t: State)
    requires Whole(s) && s.v.ready != [] && s.mem.Sized(|s.v.role|)
    requires s.v.ready[0] < |s.v.role| == |s.flags| == |s.attached| && t == Dequeue(s)
    ensures Whole(t) && t.mem.Sized(|t.v.role|) && |t.attached| == |t.v.role|
    ensures var e, fl := s.v.ready[0], s.flags[s.v.ready[0]];
            && (fl.deleted ==> !t.attached[e])
            && (t.attached[e] ==> IsEvent(t, e))
            && Drain(s) == if !t.attached[e] then Release(t, e)
                           else if fl.oneshot then Release(EventCalls.EvqDel(t, e), e) else t
  {
    DequeueKeeps(s);
    DequeuedHead(s);
    Shape(t);
  }

  ghost predicate Fits(s: State, es: seq<nat>) {
    s.mem.Sized(|s.flags|) && Within(es, |s.flags|)
  }

  ghost predicate Listed(s: State, es: seq<nat>) {
    && Fits(s, es) && Distinct(es) && es != []
    && forall i {:trigger s.mem.w3[es[i]]} :: 0 <= i < |es| ==> s.mem.w3[es[i]] == At(es, i + 1)
  }

  ghost function PushedOne(s: State, ev: nat, at: int): State
    requires s.mem.Sized(|s.flags|) && ev < |s.flags|
  {
    s.(mem := s.mem.(w0 := s.mem.w0[ev := s.evReady], due := s.mem.due[ev := at]), evReady := ev,
       flags := s.flags[ev := s.flags[ev].(active := true, timeoutRes := true)])
  }

  ghost predicate Cuttable(s: State, tq: nat, evHead: nat, ev: nat) {
    && s.mem.Sized(|s.mem.w0|) && tq < |s.mem.w0| && evHead < |s.mem.w0| && ev < |s.mem.w0|
    && 0 <= s.mem.w3[tq] < |s.mem.w0| && s.mem.w3[tq] != tq && 0 <= s.evReady < |s.mem.w0|
  }

  ghost function Cut(s: State, tq: nat, evHead: nat, ev: nat): State
    requires Cuttable(s, tq, evHead, ev)
  {
    var last := s.mem.w3[tq];
    s.(mem := s.mem.(w2 := s.mem.w2[tq := ev][ev := NULL][evHead := last],
                     w3 := s.mem.w3[last := evHead][tq := s.evReady][s.evReady := NULL]))
  }

  datatype Aspect = Words | Bits | Front | Others

  /** What has changed between `s` and `t` once the first `i` events have been pushed. */
  ghost predicate Done(a: Aspect, s: State, t: State, es: seq<nat>, at: int, i: nat)
    requires Fits(s, es) && i <= |es|
  {
    match a
    case Words => t.mem == s.mem.(w0 := Pushed(s.mem.w0, s.evReady, es[..i]), due := Rearm(s.mem.due, es[..i], at))
    case Bits => t.flags == Marked(s.flags, es[..i])
    case Front => t.evReady == Ready(es[..i], s.evReady)
    case Others => t == s.(mem := t.mem, flags := t.flags, evReady := t.evReady)
  }

  ghost predicate Progress(s: State, t: State, es: seq<nat>, at: int, i: nat)
    requires Fits(s, es) && i <= |es|
  {
    forall a {:trigger Done(a, s, t, es, at, i)} :: Done(a, s, t, es, at, i)
  }

  /** The inner loop has pushed the first `i` events, all of them due, and has come to `ev`. */
  ghost predicate RipeSoFar(s: State, t: State, es: seq<nat>, at: int, i: nat, ev: int)
    requires Listed(s, es)
  {
    exists n: nat :: n == i && Sofar(s, t, es, at, n, ev)
  }

  ghost predicate Sofar(s: State, t: State, es: seq<nat>, at: int, n: nat, ev: int)
    requires Listed(s, es)
  {
    && n <= |es| && ev == At(es, n) && Progress(s, t, es, at, n)
    && t.mem.Sized(|t.flags|) && |t.flags| == |s.flags| && t.mem.w3 == s.mem.w3
    && (n < |es| ==> t.mem.due[es[n]] == s.mem.due[es[n]])
    && forall j :: 0 <= j < n ==> s.mem.due[es[j]] < s.now + MIN_TIMEOUT
  }

  lemma PushingStarts(s: State, es: seq<nat>, at: int, ev: int)
    requires Listed(s, es) && ev == es[0]
    ensures RipeSoFar(s, s, es, at, 0, ev) && 0 <= ev < |s.mem.due|
  {
    NoProgress(s, s, es, at, 0);
    assert Sofar(s, s, es, at, 0, ev);
  }

  lemma PushingNow(s: State, t: State, es: seq<nat>, at: int, i: nat, ev: int)
    requires Listed(s, es) && RipeSoFar(s, t, es, at, i, ev) && ev != NULL
    ensures t.mem.Sized(|t.flags|) && 0 <= ev < |t.flags| && i < |es| && ev == es[i]
  {
  }

  lemma PushingStep(s: State, t: State, es: seq<nat>, at: int, i: nat, ev: nat)
    requires Listed(s, es) && RipeSoFar(s, t, es, at, i, ev) && ev < |t.mem.due| && t.mem.due[ev] < s.now + MIN_TIMEOUT
    ensures t.mem.Sized(|t.flags|) && ev < |t.flags|
    ensures var t' := PushedOne(t, ev, at);
            && RipeSoFar(s, t', es, at, i + 1, t'.mem.w3[ev]) && i < |es|
            && (t'.mem.w3[ev] != NULL ==> 0 <= t'.mem.w3[ev] < |t'.mem.due|)
  {
    PushingNow(s, t, es, at, i, ev);
    assert s.mem.w3[es[i]] == At(es, i + 1);
    MoreProgress(s, t, PushedOne(t, ev, at), es, at, i, i + 1);
    assert Sofar(s, PushedOne(t, ev, at), es, at, i + 1, At(es, i + 1));
  }

  lemma PushingEnds(s: State, t: State, es: seq<nat>, at: int, i: nat, ev: int) returns (k: nat)
    requires Listed(s, es) && s.mem.due[es[0]] < s.now + MIN_TIMEOUT && RipeSoFar(s, t, es, at, i, ev)
    requires ev != NULL ==> 0 <= ev < |t.mem.due| && t.mem.due[ev] >= s.now + MIN_TIMEOUT
    ensures k == Ripe(s.mem.due, es, s.now + MIN_TIMEOUT) && 0 < k && ev == At(es, k) && Progress(s, t, es, at, k)
  {
    k := i;
    AtIsPointer(es, k);
    RipeIs(s.mem.due, es, s.now + MIN_TIMEOUT, k);
  }

  lemma NoProgress(s: State, t: State, es: seq<nat>, at: int, i: nat)
    requires Listed(s, es) && i == 0 && t == s
    ensures Progress(s, t, es, at, i)
  {
    forall a
      ensures Done(a, s, t, es, at, i)
    {
      match a {
        case Words =>
        case Bits =>
        case Front =>
        case Others =>
      }
    }
  }

  lemma MoreProgress(s: State, t: State, t': State, es: seq<nat>, at: int, i: nat, j: nat)
    requires Listed(s, es) && i < |es| && Progress(s, t, es, at, i) && j == i + 1
    requires t.mem.Sized(|t.flags|) && |t.flags| == |s.flags| && t' == PushedOne(t, es[i], at)
    ensures Progress(s, t', es, at, j)
    ensures j < |es| ==> t'.mem.due[es[j]] == s.mem.due[es[j]]
  {
    assert es[..j][..i] == es[..i] && es[i] !in es[..i];
    forall a
      ensures Done(a, s, t', es, at, j)
    {
      assert Done(Words, s, t, es, at, i);
      match a {
        case Words => assert Done(Front, s, t, es, at, i);
        case Bits => assert Done(Bits, s, t, es, at, i);
        case Front =>
        case Others => assert Done(Others, s, t, es, at, i);
      }
    }
    if j < |es| {
      assert Done(Words, s, t', es, at, j);
      assert es[j] !in es[..j];
      RearmedAt(s.mem.due, es[..j], at);
    }
  }


  lemma FiredWith(s: State, ms: int, k: nat, w0: seq<int>, due: seq<int>, flags: seq<Flags>)
    requires Fireable(s, ms)
    requires var es := s.v.q.part[ms];
             k == Ripe(s.mem.due, es, s.now + MIN_TIMEOUT) && w0 == Pushed(s.mem.w0, s.evReady, es[..k])
             && due == Rearm(s.mem.due, es[..k], s.now + ms) && flags == Marked(s.flags, es[..k])
    ensures |w0| == |due| == |flags| == |s.v.role|
    ensures FireState(s, ms) == FireWith(s, ms, k, w0, due, flags).(v := FireState(s, ms).v)
  {
  }

  lemma FiredNone(s: State, ms: int)
    requires Fireable(s, ms) && Ripe(s.mem.due, s.v.q.part[ms], s.now + MIN_TIMEOUT) == 0
    ensures FireState(s, ms) == s.(v := FireState(s, ms).v)
  {
    FiredWith(s, ms, 0, s.mem.w0, s.mem.due, s.flags);
  }

  /** The events that are due have been pushed; unless they are all, the next one becomes the head. */
  lemma FiredSome(s: State, t: State, ms: int, q: nat, k: nat)
    requires Linked(s, ms) && q == s.v.q.idx[ms]
    requires k == Ripe(s.mem.due, s.v.q.part[ms], s.now + MIN_TIMEOUT) && k > 0
    requires Progress(s, t, s.v.q.part[ms], s.now + ms, k)
    ensures var es := s.v.q.part[ms];
            && (k < |es| ==> Cuttable(t, q, es[0], es[k]))
            && FireState(s, ms) == (if k < |es| then Cut(t, q, es[0], es[k]) else t).(v := FireState(s, ms).v)
  {
    var es := s.v.q.part[ms];
    assert es[|es| - 1] in es;
    Progressed(s, t, es, s.now + ms, k);
    FiredWith(s, ms, k, t.mem.w0, t.mem.due, t.flags);
    CutFires(s, t, ms, q, es, k);
  }

  lemma CutFires(s: State, t: State, ms: int, q: nat, es: seq<nat>, k: nat)
    requires Fireable(s, ms) && es == s.v.q.part[ms] && q == s.v.q.idx[ms] && 0 < k <= |es|
    requires |t.mem.w0| == |t.mem.due| == |t.flags| == |s.v.role|
    requires s.mem.w3[q] == es[|es| - 1] && s.mem.w3[q] != q
    requires t == s.(mem := s.mem.(w0 := t.mem.w0, due := t.mem.due), flags := t.flags, evReady := es[k - 1])
    ensures k < |es| ==> Cuttable(t, q, es[0], es[k])
    ensures FireWith(s, ms, k, t.mem.w0, t.mem.due, t.flags) == if k < |es| then Cut(t, q, es[0], es[k]) else t
  {
  }

  lemma Progressed(s: State, t: State, es: seq<nat>, at: int, i: nat)
    requires Fits(s, es) && i <= |es| && Progress(s, t, es, at, i)
    ensures t == s.(mem := s.mem.(w0 := Pushed(s.mem.w0, s.evReady, es[..i]), due := Rearm(s.mem.due, es[..i], at)),
                    flags := Marked(s.flags, es[..i]), evReady := Ready(es[..i], s.evReady))
    ensures i > 0 ==> t.evReady == es[i - 1]
  {
    assert Done(Words, s, t, es, at, i) && Done(Bits, s, t, es, at, i) && Done(Front, s, t, es, at, i)
        && Done(Others, s, t, es, at, i);
  }

  ghost predicate Openable(s: State, e: nat) {
    && s.mem.Sized(|s.v.role|) && e < |s.v.role| && Within(s.v.q.tqs, |s.mem.w4|)
    && s.v.free != [] && s.v.free[0] < |s.v.role| && s.evFree == s.v.free[0]
    && s.v.free[0] != e && s.v.free[0] !in s.v.q.tqs
  }

  ghost predicate Joinable(s: State, e: nat, ms: int) {
    && s.mem.Sized(|s.v.role|) && e < |s.v.role| && ms in s.v.q.idx && s.v.q.idx[ms] < |s.v.role|
    && 0 <= s.mem.w3[s.v.q.idx[ms]] < |s.v.role|
  }

  /** What the stores of timeout_reset need of the links around the event. */
  ghost predicate Movable(s: State, e: nat) {
    && Resettable(s, e) && NULL <= s.mem.w2[e]
    && var tq := s.mem.w4[e];
       && e != tq && 0 <= s.mem.w3[tq] < |s.v.role| && s.mem.w3[tq] != tq && NULL <= s.mem.w3[e]
       && (s.mem.w3[e] != NULL ==>
            s.mem.w3[tq] != e && s.mem.w2[e] != e && s.mem.w2[e] != tq && s.mem.w3[e] != e && s.mem.w3[e] != tq)
  }

  /** The new time may be stored before the event is moved. */
  lemma RearmedFirst(m: Mem, q: nat, e: nat, p: int, n: int, d: int)
    requires m.Sized(|m.w0|) && q < |m.w0| && e < |m.w0| && p < |m.w0| && n < |m.w0|
    requires 0 <= Unhook(m, q, p, n).w3[q] < |m.w0|
    ensures var m1 := m.(due := m.due[e := d]);
            && 0 <= Unhook(m1, q, p, n).w3[q] < |m.w0|
            && Append(Unhook(m1, q, p, n), q, e, d) == Append(Unhook(m, q, p, n), q, e, d)
  {
    assert m.due[e := d][e := d] == m.due[e := d];
  }

  lemma FreeWhenAdding(s: State)
    requires Whole(s)
    ensures s.evFree == NULL <==> s.v.free == []
    ensures s.v.q.idx.Keys == s.v.q.part.Keys
  {
    FreeEmptyIff(s);
    assert Holds(Contents, s);
  }

  /** The fields that OpenQueue changes. */
  lemma Opened(s: State, e: nat, ms: int, p: int, n: int) returns (s': State)
    requires Openable(s, e) && p == At(s.v.q.tqs, Place(s, ms) - 1) && n == At(s.v.q.tqs, Place(s, ms))
    ensures s' == OpenQueue(s, e, ms)
    ensures NULL <= p < |s.v.role| && NULL <= n < |s.v.role| && p != s.v.free[0] && n != s.v.free[0]
    ensures var q := s.v.free[0];
            s' == s.(mem := NewQueue(s.mem, q, p, n, ms, e, s.now + ms), evFree := s.mem.w0[q],
                     tqHead := if p == NULL then q else s.tqHead,
                     tqMap := if s.useMap then s.tqMap[ms := q] else s.tqMap, v := s'.v)
  {
    AtIsPointer(s.v.q.tqs, Place(s, ms) - 1);
    AtIsPointer(s.v.q.tqs, Place(s, ms));
    s' := OpenQueue(s, e, ms);
  }

  lemma Opens(s: State, e: nat, ms: int)
    requires Whole(s) && IsEvent(s, e) && s.mem.Sized(|s.v.role|) && s.mem.w4[e] == NULL
    requires e < |s.attached| && s.attached[e] && ms !in s.v.q.part && s.v.free != []
    ensures Openable(s, e) && AddTimeout(s, e, ms) == (OpenQueue(s, e, ms), true)
  {
    OpenQueueKeeps(s, e, ms);
  }

  lemma Joins(s: State, e: nat, ms: int)
    requires Whole(s) && IsEvent(s, e) && s.mem.Sized(|s.v.role|) && s.mem.w4[e] == NULL
    requires e < |s.attached| && s.attached[e] && ms in s.v.q.idx
    ensures Joinable(s, e, ms) && AddTimeout(s, e, ms) == (JoinQueue(s, e, ms), true)
  {
    assert Holds(Contents, s);
    JoinQueueKeeps(s, e, ms);
  }

  lemma Resets(s: State, e: nat)
    requires Whole(s) && IsEvent(s, e) && s.mem.Sized(|s.v.role|) && s.mem.w4[e] != NULL
    ensures Movable(s, e) && ResetTimeout(s, e) == Reset(s, e)
  {
    ResetKeeps(s, e);
    var ms, k := Queued(s, e);
    Facts(s);
    var es := s.v.q.part[ms];
    AtIsPointer(es, k as int - 1);
    AtIsPointer(es, k + 1);
    assert es[|es| - 1] in es;
    if k + 1 < |es| { assert es[k + 1] in es; }
    if k > 0 { assert es[k - 1] in es; }
  }

  ghost predicate Droppable(s: State, e: nat) {
    && s.mem.Sized(|s.v.role|) && e < |s.v.role| && 0 <= s.mem.w4[e] < |s.v.role|
    && var q := s.mem.w4[e];
       && NULL <= s.mem.w0[q] < |s.v.role| && NULL <= s.mem.w1[q] < |s.v.role|
       && q in s.v.q.tqs && s.mem.w4[q] in s.v.q.idx && s.v.q.idx[s.mem.w4[q]] == q && q != e
  }

  ghost predicate Leavable(s: State, e: nat) {
    && s.mem.Sized(|s.v.role|) && e < |s.v.role| && 0 <= s.mem.w4[e] < |s.v.role|
    && NULL <= s.mem.w2[e] < |s.v.role| && NULL <= s.mem.w3[e] < |s.v.role|
    && TimeoutOf(s.mem, e) in s.v.q.part && e in s.v.q.part[TimeoutOf(s.mem, e)]
  }

  /** timeout_del on the only event of a queue. */
  lemma DropsQueue(s: State, e: nat)
    requires Whole(s) && IsEvent(s, e) && s.mem.Sized(|s.v.role|) && s.mem.w4[e] != NULL
    requires s.mem.w2[e] == NULL && s.mem.w3[e] == NULL
    ensures Droppable(s, e) && DelTimeout(s, e) == DropQueue(s, e)
  {
    DropQueueKeeps(s, e);
    QueueSlotIsNoEvent(s, e);
  }

  /** timeout_del on one event of several. */
  lemma LeavesQueue(s: State, e: nat)
    requires Whole(s) && IsEvent(s, e) && s.mem.Sized(|s.v.role|) && s.mem.w4[e] != NULL
    requires s.mem.w2[e] != NULL || s.mem.w3[e] != NULL
    ensures Leavable(s, e) && DelTimeout(s, e) == LeaveQueue(s, e)
  {
    LeaveQueueKeeps(s, e);
  }

  lemma HeadOfList(s: State)
    requires Inv(s)
    ensures s.tqHead == At(s.v.q.tqs, 0) && NULL <= s.tqHead && s.mem.Sized(|s.mem.w0|) && Within(s.v.q.tqs, |s.mem.w0|)
  {
    assert Holds(QueueList, s) && Holds(Sizes, s);
    AtIsPointer(s.v.q.tqs, 0);
  }

  lemma NextQueue(s: State, i: nat)
    requires Inv(s) && i < |s.v.q.tqs|
    ensures s.v.q.tqs[i] < |s.mem.w1| && s.mem.w1[s.v.q.tqs[i]] == At(s.v.q.tqs, i + 1)
  {
    assert Holds(QueueList, s);
  }

  /** What the loop over one queue needs of its links. */
  ghost predicate Linked(s: State, ms: int) {
    && Fireable(s, ms) && Listed(s, s.v.q.part[ms])
    && var q, es := s.v.q.idx[ms], s.v.q.part[ms];
       && q !in es && s.mem.w2[q] == es[0] && s.mem.w3[q] == es[|es| - 1] && s.mem.w4[q] == ms
  }

  /** The state before the `i`th round of the loop over the queues, with `tq` the queue to come. */
  ghost predicate Processing(s: State, t: State, i: nat, tq: int)
    requires Inv(s) && AllCalm(s)
  {
    exists goal :: goal == Process(s) && Heading(goal, t, i, tq)
  }

  ghost predicate Heading(goal: State, t: State, i: nat, tq: int) {
    && Inv(t) && Ahead(t, i) && ProcessFrom(t, i) == goal && tq == At(t.v.q.tqs, i) && NULL <= tq
    && (tq != NULL ==> i < |t.v.q.tqs|)
  }

  lemma ProcessStarts(s: State)
    requires Inv(s) && AllCalm(s)
    ensures Processing(s, s, 0, s.tqHead)
  {
    AllAhead(s);
    HeadOfList(s);
    assert Heading(Process(s), s, 0, s.tqHead);
  }

  lemma ProcessEnds(s: State, t: State, i: nat, tq: int)
    requires Inv(s) && AllCalm(s) && Processing(s, t, i, tq) && tq == NULL
    ensures t == Process(s)
  {
    AtIsPointer(t.v.q.tqs, i);
  }

  /** The queue the loop has come to is linked. */
  lemma NthLinked(t: State, i: nat, tq: int)
    requires Inv(t) && i < |t.v.q.tqs| && tq == t.v.q.tqs[i] && Within(t.v.q.tqs, |t.mem.w4|)
    ensures Linked(t, Nth(t, i)) && t.v.q.idx[Nth(t, i)] == tq
  {
    assert Holds(QueueList, t) && Holds(Contents, t) && Holds(Sizes, t);
    assert t.v.q.tqs[i] in t.v.q.tqs;
    assert OneOk(t.mem, t.v.q, Nth(t, i), t.now);
  }

  lemma ProcessStep(s: State, t: State, i: nat, tq: int) returns (ms: int)
    requires Inv(s) && AllCalm(s) && Processing(s, t, i, tq) && tq != NULL
    ensures Linked(t, ms) && t.v.q.idx[ms] == tq && i < |t.v.q.tqs|
    ensures var t1 := FireState(t, ms);
            tq < |t1.mem.w1| && Processing(s, t1, i + 1, t1.mem.w1[tq]) && t1.v.q.tqs == t.v.q.tqs
  {
    ms := Nth(t, i);
    NthLinked(t, i, tq);
    AheadOnce(t, i);
    HeadsOn(Process(s), t, FireState(t, ms), i, tq);
  }

  lemma HeadsOn(goal: State, t: State, t1: State, i: nat, tq: int)
    requires Heading(goal, t, i, tq) && tq != NULL && i < |t.v.q.tqs| && Fireable(t, Nth(t, i)) && t1 == FireState(t, Nth(t, i))
    requires Inv(t1) && Ahead(t1, i + 1) && SameFrame(t, t1)
    ensures tq < |t1.mem.w1| && Heading(goal, t1, i + 1, t1.mem.w1[tq])
  {
    NextQueue(t1, i);
    AtIsPointer(t1.v.q.tqs, i + 1);
  }

  lemma RipeIs(due: seq<int>, es: seq<nat>, limit: int, k: nat)
    requires Within(es, |due|) && k <= |es|
    requires forall i :: 0 <= i < k ==> due[es[i]] < limit
    requires k < |es| ==> due[es[k]] >= limit
    ensures Ripe(due, es, limit) == k
  {
    var r := Ripe(due, es, limit);
    if r < k { assert false; }
  }

  lemma FoundInMap(s: State, ms: int)
    requires Inv(s) && s.useMap
    ensures s.tqMap == s.v.q.idx && s.tqHead == At(s.v.q.tqs, 0) && Within(s.v.q.tqs, |s.mem.w4|)
    ensures ms in s.v.q.idx ==> s.v.q.idx[ms] in s.v.q.tqs && s.mem.w4[s.v.q.idx[ms]] == ms
    ensures ms !in s.v.q.idx && s.tqHead != NULL ==> s.mem.w4[s.tqHead] != ms
  {
    Facts(s);
    if s.v.q.tqs != [] { assert s.v.q.tqs[0] in s.v.q.tqs; }
  }

  lemma BelowIs(w4: seq<int>, tqs: seq<nat>, ms: int, k: nat)
    requires Within(tqs, |w4|) && k <= |tqs|
    requires forall i :: 0 <= i < k ==> w4[tqs[i]] < ms
    requires k < |tqs| ==> w4[tqs[k]] >= ms
    ensures Below(w4, tqs, ms) == k
  {
    var b := Below(w4, tqs, ms);
    if b < k { assert false; }
  }

  lemma FoundInList(s: State, ms: int)
    requires Inv(s) && !s.useMap
    ensures Within(s.v.q.tqs, |s.mem.w4|)
    ensures var k := Below(s.mem.w4, s.v.q.tqs, ms);
            if k < |s.v.q.tqs| && s.mem.w4[s.v.q.tqs[k]] == ms then ms in s.v.q.idx && s.v.q.idx[ms] == s.v.q.tqs[k]
            else ms !in s.v.q.idx
  {
    Facts(s);
    var k := Below(s.mem.w4, s.v.q.tqs, ms);
    if k < |s.v.q.tqs| { assert s.v.q.tqs[k] in s.v.q.tqs; }
    if ms in s.v.q.idx {
      var j := IndexOf(s.v.q.tqs, s.v.q.idx[ms]);
      assert s.mem.w4[s.v.q.tqs[j]] == ms;
      assert k <= j;
      if k < j { assert false; }
    }
  }
}
