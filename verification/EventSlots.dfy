/**
 Roles of the event slots of src/sys_evq.c: every slot carved from the buffers is a live or pending
 event, a timeout queue, a pending synchronous operation or free, and one of these only.
 */
module EventSlots {
  import opened Lists
  import opened TimeoutLists
  import opened TimeoutState

  /** `Taken` is a slot between its allocation and its use, and one that levq_add has lost. */
  datatype Role = Free | Queue | Sync | Event | Taken

  /** The bits of ev->flags that the event queue acts on. */
  datatype Flags = Flags(active: bool, deleted: bool, oneshot: bool, manual: bool, timer: bool,
                         readRes: bool, timeoutRes: bool)

  const NO_FLAGS := Flags(false, false, false, false, false, false, false)

  /** What the words in the slots amount to: `alive` are the events with ev->evq set. */
  datatype View = View(role: seq<Role>, free: seq<nat>, sync: seq<nat>, ready: seq<nat>, alive: set<nat>, q: Queues)

  /** ev->tq is NULL, or the slot of the queue that lists the event. */
  ghost predicate Tied(p: nat, q: Queues, w4: seq<int>)
    requires p < |w4|
  {
    w4[p] == NULL ||
    (0 <= w4[p] < |w4| && w4[p] in q.tqs && w4[w4[p]] in q.part && p in q.part[w4[w4[p]]])
  }

  ghost predicate SlotOk(p: nat, v: View, w4: seq<int>, flags: seq<Flags>, attached: seq<bool>, evId: seq<int>)
    requires p < |v.role| == |w4| == |flags| == |attached| == |evId|
  {
    && (v.role[p] == Free <==> p in v.free)
    && (v.role[p] == Queue <==> p in v.q.tqs)
    && (v.role[p] == Sync <==> p in v.sync)
    && (p in v.ready ==> v.role[p] == Event)
    && (p in v.alive <==> v.role[p] == Event && attached[p])
    && (forall ms :: ms in v.q.part && p in v.q.part[ms] ==> v.role[p] == Event)
    && evId[p] == p
    && (v.role[p] == Event ==>
          && (flags[p].active <==> p in v.ready)
          && (attached[p] || flags[p].active)
          && (flags[p].deleted ==> !attached[p])
          && Tied(p, v.q, w4) && (w4[p] != NULL ==> attached[p]))
  }

  ghost predicate SlotsOk(v: View, w4: seq<int>, flags: seq<Flags>, attached: seq<bool>, evId: seq<int>) {
    && |v.role| == |w4| == |flags| == |attached| == |evId|
    && (forall p: nat {:trigger SlotOk(p, v, w4, flags, attached, evId)} ::
          p < |v.role| ==> SlotOk(p, v, w4, flags, attached, evId))
    && forall p :: p in v.alive ==> p < |v.role|
  }

  /** The free list, the ready list and the list of synchronous operations share word 0. */
  ghost predicate ChainsOk(w0: seq<int>, evFree: int, syncOp: int, evReady: int, v: View) {
    Chain(w0, evFree, v.free) && Chain(w0, syncOp, v.sync) && Chain(w0, evReady, v.ready)
  }

  /** With the map every queue is in it; without it the queue list is sorted. */
  ghost predicate LookupOk(useMap: bool, tqMap: map<int, nat>, w4: seq<int>, q: Queues)
    requires Within(q.tqs, |w4|)
  {
    if useMap then tqMap == q.idx
    else forall i, j :: 0 <= i < j < |q.tqs| ==> w4[q.tqs[i]] < w4[q.tqs[j]]
  }

  // ---------------------------------------------------------------- the three chains

  /** Storing into word 0 of a slot on none of the chains keeps them. */
  lemma ChainsKeep(w0: seq<int>, f: int, s: int, r: int, v: View, p: nat, x: int)
    requires ChainsOk(w0, f, s, r, v) && p < |w0| && p !in v.free && p !in v.sync && p !in v.ready
    ensures ChainsOk(w0[p := x], f, s, r, v)
  {
    ChainKeep(w0, f, v.free, p, x);
    ChainKeep(w0, s, v.sync, p, x);
    ChainKeep(w0, r, v.ready, p, x);
  }

  lemma PushFree(w0: seq<int>, f: int, s: int, r: int, v: View, p: nat)
    requires ChainsOk(w0, f, s, r, v) && p < |w0| && p !in v.free && p !in v.sync && p !in v.ready
    ensures ChainsOk(w0[p := f], p, s, r, v.(free := [p] + v.free))
  {
    ChainsKeep(w0, f, s, r, v, p, f);
    ChainPush(w0, f, v.free, p);
  }

  lemma PushReady(w0: seq<int>, f: int, s: int, r: int, v: View, p: nat)
    requires ChainsOk(w0, f, s, r, v) && p < |w0| && p !in v.free && p !in v.sync && p !in v.ready
    ensures ChainsOk(w0[p := r], f, s, p, v.(ready := [p] + v.ready))
  {
    ChainsKeep(w0, f, s, r, v, p, r);
    ChainPush(w0, r, v.ready, p);
  }

  lemma PushSync(w0: seq<int>, f: int, s: int, r: int, v: View, p: nat)
    requires ChainsOk(w0, f, s, r, v) && p < |w0| && p !in v.free && p !in v.sync && p !in v.ready
    ensures ChainsOk(w0[p := s], f, p, r, v.(sync := [p] + v.sync))
  {
    ChainsKeep(w0, f, s, r, v, p, s);
    ChainPush(w0, s, v.sync, p);
  }

  /** The stores of the queue list touch no chain. */
  lemma ChainsUnlink(w0: seq<int>, f: int, s: int, r: int, v: View, at: int, x: int)
    requires ChainsOk(w0, f, s, r, v) && at < |w0|
    requires at >= 0 ==> at !in v.free && at !in v.sync && at !in v.ready
    ensures ChainsOk(Unlink(w0, at, x), f, s, r, v)
  {
    if at >= 0 { ChainsKeep(w0, f, s, r, v, at, x); }
  }

  // ---------------------------------------------------------------- slots under the timeout operations

  lemma PartDelMembers(part: map<int, seq<nat>>, ms: int, e: nat)
    requires ms in part && e in part[ms] && Distinct(part[ms])
    requires forall m :: m in part && m != ms ==> e !in part[m]
    ensures forall m, p :: m in part && p in part[m] && p != e ==>
              m in PartDel(part, ms, e) && p in PartDel(part, ms, e)[m]
    ensures forall m, p :: m in PartDel(part, ms, e) && p in PartDel(part, ms, e)[m] ==>
              m in part && p in part[m] && p != e
  {
    WithoutMembers(part[ms], IndexOf(part[ms], e));
    DropAt(part[ms], IndexOf(part[ms], e));
    if |part[ms]| == 1 {
      assert part[ms] == [e];
    }
  }

  /** The event has left a queue that others remain in. */
  lemma SlotsDelMany(v: View, w4: seq<int>, flags: seq<Flags>, attached: seq<bool>, evId: seq<int>, ms: int, e: nat)
    requires SlotsOk(v, w4, flags, attached, evId) && e < |v.role|
    requires ms in v.q.part && e in v.q.part[ms] && Distinct(v.q.part[ms]) && |v.q.part[ms]| > 1
    requires forall m :: m in v.q.part && m != ms ==> e !in v.q.part[m]
    ensures SlotsOk(v.(q := v.q.(part := PartDel(v.q.part, ms, e))), w4[e := NULL], flags, attached, evId)
  {
    PartDelMembers(v.q.part, ms, e);
    var v', t4 := v.(q := v.q.(part := PartDel(v.q.part, ms, e))), w4[e := NULL];
    assert SlotOk(e, v, w4, flags, attached, evId);
    forall p: nat | p < |v.role|
      ensures SlotOk(p, v', t4, flags, attached, evId)
    {
      assert SlotOk(p, v, w4, flags, attached, evId);
    }
  }

  /** The view after the last event of a queue has left and the queue slot has become free. */
  function ViewDelLast(v: View, ms: int, k: nat): View
    requires ms in v.q.idx && k < |v.q.tqs| && v.q.idx[ms] < |v.role|
  {
    var q := v.q.idx[ms];
    v.(role := v.role[q := Free], free := [q] + v.free,
       q := Queues(Without(v.q.tqs, k), v.q.part - {ms}, v.q.idx - {ms}))
  }

  lemma SlotsDelLast(v: View, w4: seq<int>, flags: seq<Flags>, attached: seq<bool>, evId: seq<int>,
                     ms: int, e: nat, k: nat)
    requires SlotsOk(v, w4, flags, attached, evId) && e < |v.role|
    requires ms in v.q.part && v.q.part[ms] == [e] && ms in v.q.idx
    requires k < |v.q.tqs| && v.q.tqs[k] == v.q.idx[ms] < |v.role| && Distinct(v.q.tqs)
    requires w4[v.q.idx[ms]] == ms && w4[e] == v.q.idx[ms] && e !in v.q.tqs
    requires forall m :: m in v.q.part && m != ms ==> e !in v.q.part[m]
    ensures SlotsOk(ViewDelLast(v, ms, k), w4[e := NULL], flags, attached, evId)
  {
    WithoutMembers(v.q.tqs, k);
    var v', t4 := ViewDelLast(v, ms, k), w4[e := NULL];
    var q := v.q.idx[ms];
    assert SlotOk(e, v, w4, flags, attached, evId) && SlotOk(q, v, w4, flags, attached, evId);
    forall p: nat | p < |v.role|
      ensures SlotOk(p, v', t4, flags, attached, evId)
    {
      assert SlotOk(p, v, w4, flags, attached, evId);
      if p != e && p != q && v.role[p] == Event && w4[p] != NULL {
        assert Tied(p, v.q, w4);
        assert p !in [e];
      }
    }
  }

  /** An event has joined the queue of its timeout. */
  lemma SlotsAddExisting(v: View, w4: seq<int>, flags: seq<Flags>, attached: seq<bool>, evId: seq<int>, ms: int, e: nat)
    requires SlotsOk(v, w4, flags, attached, evId) && e < |v.role| && v.role[e] == Event && attached[e]
    requires ms in v.q.part && ms in v.q.idx && v.q.idx[ms] in v.q.tqs && v.q.idx[ms] < |v.role|
    requires w4[v.q.idx[ms]] == ms && w4[e] == NULL
    ensures SlotsOk(v.(q := v.q.(part := PartAdd(v.q.part, ms, e))), w4[e := v.q.idx[ms]], flags, attached, evId)
  {
    var v', t4 := v.(q := v.q.(part := PartAdd(v.q.part, ms, e))), w4[e := v.q.idx[ms]];
    assert SlotOk(e, v, w4, flags, attached, evId);
    assert SlotOk(v.q.idx[ms], v, w4, flags, attached, evId);
    forall p: nat | p < |v.role|
      ensures SlotOk(p, v', t4, flags, attached, evId)
    {
      assert SlotOk(p, v, w4, flags, attached, evId);
      if v.role[p] == Event && p != e && w4[p] != NULL {
        assert Tied(p, v.q, w4);
        assert SlotOk(w4[p], v, w4, flags, attached, evId);
      }
    }
  }

  /** The view after a free slot has become the queue of a new timeout. */
  function ViewAddNew(v: View, ms: int, k: nat, e: nat): View
    requires v.free != [] && v.free[0] < |v.role| && k <= |v.q.tqs|
  {
    var q := v.free[0];
    v.(role := v.role[q := Queue], free := v.free[1..],
       q := Queues(Insert(v.q.tqs, k, q), PartAdd(v.q.part, ms, e), v.q.idx[ms := q]))
  }

  lemma SlotsAddNew(v: View, w4: seq<int>, flags: seq<Flags>, attached: seq<bool>, evId: seq<int>,
                    ms: int, k: nat, e: nat)
    requires SlotsOk(v, w4, flags, attached, evId) && e < |v.role| && v.role[e] == Event && attached[e]
    requires v.free != [] && v.free[0] < |v.role| && v.free[0] !in v.free[1..] && k <= |v.q.tqs|
    requires ms !in v.q.part && w4[e] == NULL
    ensures SlotsOk(ViewAddNew(v, ms, k, e), w4[v.free[0] := ms][e := v.free[0]], flags, attached, evId)
  {
    var q := v.free[0];
    var v', t4 := ViewAddNew(v, ms, k, e), w4[q := ms][e := q];
    InsertMembers(v.q.tqs, k, q);
    assert v.free == [q] + v.free[1..];
    assert SlotOk(e, v, w4, flags, attached, evId) && SlotOk(q, v, w4, flags, attached, evId);
    forall p: nat | p < |v.role|
      ensures SlotOk(p, v', t4, flags, attached, evId)
    {
      assert SlotOk(p, v, w4, flags, attached, evId);
      if v.role[p] == Event && p != e && w4[p] != NULL {
        assert Tied(p, v.q, w4);
        assert SlotOk(w4[p], v, w4, flags, attached, evId);
      }
    }
  }

  /** Queues with the same events in another order, in slots that stay as they are. */
  lemma SlotsReorder(v: View, w4: seq<int>, flags: seq<Flags>, attached: seq<bool>, evId: seq<int>,
                     ms: int, es: seq<nat>)
    requires SlotsOk(v, w4, flags, attached, evId) && ms in v.q.part
    requires forall p :: p in es <==> p in v.q.part[ms]
    ensures SlotsOk(v.(q := v.q.(part := v.q.part[ms := es])), w4, flags, attached, evId)
  {
    var v' := v.(q := v.q.(part := v.q.part[ms := es]));
    forall p: nat | p < |v.role|
      ensures SlotOk(p, v', w4, flags, attached, evId)
    {
      assert SlotOk(p, v, w4, flags, attached, evId);
    }
  }
}
