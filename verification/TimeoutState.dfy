/** All timeout queues together: what add, delete, reset and process do to the queue list and to every queue. */
module TimeoutState {
  import opened Lists
  import opened TimeoutLists

  /** The queue slots from the list head on, and by timeout the events of a queue and its slot. */
  datatype Queues = Queues(tqs: seq<nat>, part: map<int, seq<nat>>, idx: map<int, nat>)

  /** The queue slots form a doubly linked list from `head`, one for each timeout. */
  ghost predicate ListOk(m: Mem, head: int, g: Queues) {
    && m.Sized(|m.w0|)
    && Dll(m.w0, m.w1, g.tqs) && head == At(g.tqs, 0)
    && (forall q :: q in g.tqs ==> m.w4[q] in g.idx && g.idx[m.w4[q]] == q)
    && (forall ms :: ms in g.idx ==> g.idx[ms] in g.tqs && m.w4[g.idx[ms]] == ms)
  }

  ghost predicate Apart(s: seq<nat>, t: seq<nat>) {
    forall e :: e in s ==> e !in t
  }

  /** The queue of `ms` is in order, and none of its events is itself a queue slot. */
  ghost predicate OneOk(m: Mem, g: Queues, ms: int, now: int)
    requires ms in g.part && ms in g.idx
  {
    QueueOk(m, g.idx[ms], g.part[ms], ms, now) && Apart(g.part[ms], g.tqs)
  }

  ghost predicate QueuesOk(m: Mem, g: Queues, now: int) {
    && g.idx.Keys == g.part.Keys
    && forall ms {:trigger OneOk(m, g, ms, now)} :: ms in g.part ==> OneOk(m, g, ms, now)
  }

  ghost predicate Timeouts(m: Mem, head: int, g: Queues, now: int) {
    ListOk(m, head, g) && QueuesOk(m, g, now)
  }

  ghost predicate SameEvent(m: Mem, m': Mem, p: nat)
    requires p < |m.w0| && m.Sized(|m.w0|) && m'.Sized(|m.w0|)
  {
    m'.w2[p] == m.w2[p] && m'.w3[p] == m.w3[p] && m'.w4[p] == m.w4[p] && m'.due[p] == m.due[p]
  }

  /** Slot `p` belongs to the queue of `ms`. */
  ghost predicate InQueue(g: Queues, ms: int, p: nat) {
    ms in g.part && ms in g.idx && (p == g.idx[ms] || p in g.part[ms])
  }

  /** `x` is in no queue. */
  ghost predicate Unqueued(g: Queues, x: nat) {
    x !in g.tqs && forall ms :: ms in g.part ==> x !in g.part[ms]
  }

  /** Stores into the slots of one queue, and into a slot of none, leave another queue as it is. */
  lemma OtherKeeps(m: Mem, m': Mem, head: int, g: Queues, now: int, ms0: int, x: nat, ms: int)
    requires Timeouts(m, head, g, now) && m'.Sized(|m.w0|)
    requires Unqueued(g, x) || InQueue(g, ms0, x)
    requires forall p: nat :: p < |m.w0| && p != x && !InQueue(g, ms0, p) ==> SameEvent(m, m', p)
    requires ms in g.part && ms != ms0
    ensures QueueOk(m', g.idx[ms], g.part[ms], ms, now) && Apart(g.part[ms], g.tqs)
  {
    assert OneOk(m, g, ms, now);
    assert ms0 in g.part ==> OneOk(m, g, ms0, now);
    forall p: nat | p == g.idx[ms] || p in g.part[ms]
      ensures p < |m.w0| && SameEvent(m, m', p)
    {
    }
    QueueFrame(m, m', g.idx[ms], g.part[ms], ms, now, now);
  }

  /** New contents for one queue, made by stores into its slots and the slot `x`. */
  lemma ReplaceQueue(m: Mem, m': Mem, head: int, g: Queues, now: int, ms: int, es: seq<nat>, x: nat)
    requires Timeouts(m, head, g, now) && ms in g.part && m'.Sized(|m.w0|)
    requires m'.w0 == m.w0 && m'.w1 == m.w1
    requires Unqueued(g, x) || InQueue(g, ms, x)
    requires forall p: nat :: p < |m.w0| && p != x && !InQueue(g, ms, p) ==> SameEvent(m, m', p)
    requires QueueOk(m', g.idx[ms], es, ms, now) && Apart(es, g.tqs)
    ensures Timeouts(m', head, g.(part := g.part[ms := es]), now)
  {
    ReplaceList(m, m', head, g, now, ms, x);
    var g' := g.(part := g.part[ms := es]);
    assert g'.part.Keys == g.part.Keys;
    forall ms' | ms' in g'.part
      ensures OneOk(m', g', ms', now)
    {
      if ms' != ms {
        OtherKeeps(m, m', head, g, now, ms, x, ms');
      }
    }
  }

  lemma ReplaceList(m: Mem, m': Mem, head: int, g: Queues, now: int, ms: int, x: nat)
    requires Timeouts(m, head, g, now) && ms in g.part && m'.Sized(|m.w0|)
    requires m'.w0 == m.w0 && m'.w1 == m.w1 && m'.w4[g.idx[ms]] == ms
    requires Unqueued(g, x) || InQueue(g, ms, x)
    requires forall p: nat :: p < |m.w0| && p != x && !InQueue(g, ms, p) ==> SameEvent(m, m', p)
    ensures ListOk(m', head, g)
  {
    assert OneOk(m, g, ms, now);
    forall q | q in g.tqs
      ensures m'.w4[q] in g.idx && g.idx[m'.w4[q]] == q
    {
      if q != g.idx[ms] {
        assert SameEvent(m, m', q);
      }
    }
    forall ms' | ms' in g.idx
      ensures m'.w4[g.idx[ms']] == ms'
    {
      if ms' != ms {
        assert SameEvent(m, m', g.idx[ms']);
      }
    }
  }

  lemma ClockMoves(m: Mem, head: int, g: Queues, now: int, now': int)
    requires Timeouts(m, head, g, now) && now <= now'
    ensures Timeouts(m, head, g, now')
  {
    forall ms | ms in g.part
      ensures OneOk(m, g, ms, now')
    {
      assert OneOk(m, g, ms, now);
      QueueFrame(m, m, g.idx[ms], g.part[ms], ms, now, now');
    }
  }

  // ---------------------------------------------------------------- timeout_del

  /** An event that is not alone leaves its queue. */
  lemma DelMany(m: Mem, head: int, g: Queues, now: int, ms: int, k: nat)
    requires Timeouts(m, head, g, now) && ms in g.part && k < |g.part[ms]| && |g.part[ms]| > 1
    requires OneOk(m, g, ms, now)
    ensures var es, q := g.part[ms], g.idx[ms];
            var m1 := Unhook(m, q, m.w2[es[k]], m.w3[es[k]]);
            && Timeouts(m1.(w4 := m.w4[es[k] := NULL]), head, g.(part := PartDel(g.part, ms, es[k])), now)
            && Unqueued(g.(part := PartDel(g.part, ms, es[k])), es[k])
  {
    var es, q := g.part[ms], g.idx[ms];
    var e := es[k];
    var m' := Unhooked(m, q, es, k, ms, now);
    WithoutMembers(es, k);
    DropAt(es, k);
    forall p: nat | p < |m.w0| && p != e && !InQueue(g, ms, p)
      ensures SameEvent(m, m', p)
    {
      UnhookFrame(m, q, es, k, p);
    }
    ReplaceQueue(m, m', head, g, now, ms, Without(es, k), e);
    OnlyQueue(m, head, g, now, ms, e);
  }

  lemma Unhooked(m: Mem, q: nat, es: seq<nat>, k: nat, ms: int, now: int) returns (m': Mem)
    requires QueueOk(m, q, es, ms, now) && k < |es| && |es| > 1
    ensures m'.Sized(|m.w0|) && m' == Unhook(m, q, m.w2[es[k]], m.w3[es[k]]).(w4 := m.w4[es[k] := NULL])
    ensures QueueOk(m', q, Without(es, k), ms, now)
  {
    UnhookQueue(m, q, es, k, ms, now);
    WithoutMembers(es, k);
    var m1 := Unhook(m, q, m.w2[es[k]], m.w3[es[k]]);
    m' := m1.(w4 := m.w4[es[k] := NULL]);
    QueueFrame(m1, m', q, Without(es, k), ms, now, now);
  }

  lemma UnhookFrame(m: Mem, q: nat, es: seq<nat>, k: nat, p: nat)
    requires QueueLinks(m, q, es) && k < |es| && |es| > 1 && p < |m.w0| && p != q && p !in es
    ensures var m1 := Unhook(m, q, m.w2[es[k]], m.w3[es[k]]);
            m1.Sized(|m.w0|) && m1.w2[p] == m.w2[p] && m1.w3[p] == m.w3[p]
  {
    UnhookStores(m, q, es, k);
    assert m.w2[es[k]] == At(es, k - 1) && m.w3[es[k]] == At(es, k + 1);
  }

  /** An event is in one queue only. */
  lemma OnlyQueue(m: Mem, head: int, g: Queues, now: int, ms: int, e: nat)
    requires Timeouts(m, head, g, now) && ms in g.part && e in g.part[ms]
    ensures e < |m.w0| && e !in g.tqs && m.w4[e] == g.idx[ms] && m.w4[g.idx[ms]] == ms
    ensures forall ms' :: ms' in g.part && ms' != ms ==> e !in g.part[ms']
  {
    assert OneOk(m, g, ms, now);
    forall ms' | ms' in g.part && ms' != ms
      ensures e !in g.part[ms']
    {
      assert OneOk(m, g, ms', now);
    }
  }

  /** The stores that take queue `q` between `p` and `n` out of the queue list. */
  function Unlist(m: Mem, p: int, n: int): (r: Mem)
    requires p < |m.w1| && n < |m.w0|
  {
    m.(w0 := Unlink(m.w0, n, p), w1 := Unlink(m.w1, p, n))
  }

  /** The last event of a queue leaves, and the queue its list; its slot goes to the free list. */
  lemma DelLast(m: Mem, head: int, g: Queues, now: int, ms: int, k: nat, link: int)
    requires Timeouts(m, head, g, now) && ms in g.part && |g.part[ms]| == 1
    requires k < |g.tqs| && g.tqs[k] == g.idx[ms] && OneOk(m, g, ms, now)
    ensures var q, e := g.idx[ms], g.part[ms][0];
            var g' := Queues(Without(g.tqs, k), g.part - {ms}, g.idx - {ms});
            && m.w0[q] == At(g.tqs, k - 1) && m.w1[q] == At(g.tqs, k + 1)
            && var m1 := Unlist(m, m.w0[q], m.w1[q]);
               && Timeouts(m1.(w0 := m1.w0[q := link], w4 := m.w4[e := NULL]),
                           if k == 0 then m.w1[q] else head, g', now)
               && Unqueued(g', e) && Unqueued(g', q)
  {
    var q, e := g.idx[ms], g.part[ms][0];
    var g' := Queues(Without(g.tqs, k), g.part - {ms}, g.idx - {ms});
    OnlyQueue(m, head, g, now, ms, e);
    WithoutMembers(g.tqs, k);
    DelList(m, head, g, now, ms, k, link, e);
    var m1 := Unlist(m, m.w0[q], m.w1[q]);
    var m' := m1.(w0 := m1.w0[q := link], w4 := m.w4[e := NULL]);
    forall ms' | ms' in g'.part
      ensures OneOk(m', g', ms', now) && e !in g'.part[ms']
    {
      OtherKeeps(m, m', head, g, now, ms, e, ms');
    }
    assert QueuesOk(m', g', now);
    forall ms' | ms' in g'.part
      ensures q !in g'.part[ms']
    {
      assert OneOk(m, g, ms', now);
    }
  }

  lemma DelList(m: Mem, head: int, g: Queues, now: int, ms: int, k: nat, link: int, e: nat)
    requires Timeouts(m, head, g, now) && ms in g.part && k < |g.tqs| && g.tqs[k] == g.idx[ms]
    requires e < |m.w0| && e !in g.tqs
    ensures var q := g.idx[ms];
            && m.w0[q] == At(g.tqs, k - 1) && m.w1[q] == At(g.tqs, k + 1)
            && var m1 := Unlist(m, m.w0[q], m.w1[q]);
               ListOk(m1.(w0 := m1.w0[q := link], w4 := m.w4[e := NULL]),
                      if k == 0 then m.w1[q] else head, Queues(Without(g.tqs, k), g.part, g.idx - {ms}))
  {
    var q := g.idx[ms];
    DllRemove(m.w0, m.w1, g.tqs, k);
    WithoutMembers(g.tqs, k);
    var m1 := Unlist(m, m.w0[q], m.w1[q]);
    DllFrame(m1.w0, m1.w1, m1.w0[q := link], m1.w1, Without(g.tqs, k));
    WithoutAt(g.tqs, k, 0);
    forall x | x in Without(g.tqs, k)
      ensures m.w4[x] in g.idx && m.w4[x] != ms && g.idx[m.w4[x]] == x
    {
    }
  }

  // ---------------------------------------------------------------- timeout_add

  /** An event joins the queue of its timeout at the tail. */
  lemma AddExisting(m: Mem, head: int, g: Queues, now: int, ms: int, e: nat)
    requires Timeouts(m, head, g, now) && ms in g.part && e < |m.w0| && Unqueued(g, e)
    ensures 0 <= m.w3[g.idx[ms]] < |m.w0|
    ensures Timeouts(Append(m, g.idx[ms], e, now + ms), head, g.(part := PartAdd(g.part, ms, e)), now)
  {
    var es, q := g.part[ms], g.idx[ms];
    assert OneOk(m, g, ms, now);
    assert m.w3[q] == es[|es| - 1] && es[|es| - 1] in es;
    AppendQueue(m, q, es, e, ms, now);
    ReplaceQueue(m, Append(m, q, e, now + ms), head, g, now, ms, es + [e], e);
  }

  /** The stores for a new queue at slot `q` between `p` and `n`, with `e` its one event. */
  function NewQueue(m: Mem, q: nat, p: int, n: int, ms: int, e: nat, due: int): (r: Mem)
    requires m.Sized(|m.w0|) && q < |m.w0| && p < |m.w0| && n < |m.w0| && e < |m.w0|
  {
    Mem(Unlink(m.w0[q := p], n, q), Unlink(m.w1[q := n], p, q),
        m.w2[q := e][e := NULL], m.w3[q := e][e := NULL], m.w4[q := ms][e := q], m.due[e := due])
  }

  lemma AddNew(m: Mem, head: int, g: Queues, now: int, ms: int, e: nat, q: nat, k: nat)
    requires Timeouts(m, head, g, now) && ms !in g.part && k <= |g.tqs|
    requires e < |m.w0| && q < |m.w0| && e != q && Unqueued(g, e) && Unqueued(g, q)
    ensures var g' := Queues(Insert(g.tqs, k, q), PartAdd(g.part, ms, e), g.idx[ms := q]);
            var p, n := At(g.tqs, k - 1), At(g.tqs, k);
            p < |m.w0| && n < |m.w0| &&
            Timeouts(NewQueue(m, q, p, n, ms, e, now + ms), if k == 0 then q else head, g', now)
  {
    var p, n := At(g.tqs, k - 1), At(g.tqs, k);
    assert EventsAt(g.part, ms) + [e] == [e];
    NewListed(m, head, g, now, ms, e, q, k);
    NewQueues(m, head, g, now, ms, e, q, k);
  }

  lemma NewListed(m: Mem, head: int, g: Queues, now: int, ms: int, e: nat, q: nat, k: nat)
    requires Timeouts(m, head, g, now) && ms !in g.part && k <= |g.tqs|
    requires e < |m.w0| && q < |m.w0| && e != q && Unqueued(g, e) && Unqueued(g, q)
    ensures At(g.tqs, k - 1) < |m.w0| && At(g.tqs, k) < |m.w0|
    ensures ListOk(NewQueue(m, q, At(g.tqs, k - 1), At(g.tqs, k), ms, e, now + ms), if k == 0 then q else head,
                   Queues(Insert(g.tqs, k, q), g.part, g.idx[ms := q]))
  {
    DllInsert(m.w0, m.w1, g.tqs, k, q);
    InsertAt(g.tqs, k, q, 0);
    NewIndexed(m, head, g, ms, e, q, k);
  }

  /** The queue slots by timeout. */
  lemma NewIndexed(m: Mem, head: int, g: Queues, ms: int, e: nat, q: nat, k: nat)
    requires ListOk(m, head, g) && ms !in g.idx && k <= |g.tqs|
    requires e < |m.w0| && q < |m.w0| && e != q && e !in g.tqs && q !in g.tqs
    ensures var t, w4, idx := Insert(g.tqs, k, q), m.w4[q := ms][e := q], g.idx[ms := q];
            && (forall x :: x in t ==> x < |w4| && w4[x] in idx && idx[w4[x]] == x)
            && forall i :: i in idx ==> idx[i] in t && idx[i] < |w4| && w4[idx[i]] == i
  {
    InsertMembers(g.tqs, k, q);
  }

  lemma NewQueues(m: Mem, head: int, g: Queues, now: int, ms: int, e: nat, q: nat, k: nat)
    requires Timeouts(m, head, g, now) && ms !in g.part && k <= |g.tqs|
    requires e < |m.w0| && q < |m.w0| && e != q && Unqueued(g, e) && Unqueued(g, q)
    requires At(g.tqs, k - 1) < |m.w0| && At(g.tqs, k) < |m.w0|
    ensures QueuesOk(NewQueue(m, q, At(g.tqs, k - 1), At(g.tqs, k), ms, e, now + ms),
                     Queues(Insert(g.tqs, k, q), g.part[ms := [e]], g.idx[ms := q]), now)
  {
    var m' := NewQueue(m, q, At(g.tqs, k - 1), At(g.tqs, k), ms, e, now + ms);
    var g' := Queues(Insert(g.tqs, k, q), g.part[ms := [e]], g.idx[ms := q]);
    InsertMembers(g.tqs, k, q);
    NewAlone(m, q, At(g.tqs, k - 1), At(g.tqs, k), ms, e, now);
    forall ms' | ms' in g'.part
      ensures OneOk(m', g', ms', now)
    {
      if ms' != ms {
        assert OneOk(m, g, ms', now);
        QueueFrame(m, m', g.idx[ms'], g.part[ms'], ms', now, now);
      }
    }
  }

  lemma NewAlone(m: Mem, q: nat, p: int, n: int, ms: int, e: nat, now: int)
    requires m.Sized(|m.w0|) && q < |m.w0| && p < |m.w0| && n < |m.w0| && e < |m.w0| && e != q
    ensures QueueOk(NewQueue(m, q, p, n, ms, e, now + ms), q, [e], ms, now)
  {
    var m' := NewQueue(m, q, p, n, ms, e, now + ms);
    DllSingle(m'.w2, m'.w3, e);
  }

  // ---------------------------------------------------------------- timeout_reset

  /** The stores of timeout_reset on an event that is not the tail. */
  function Requeue(m: Mem, q: nat, e: nat, due: int): (r: Mem)
    requires m.Sized(|m.w0|) && q < |m.w0| && e < |m.w0| && m.w2[e] < |m.w0| && m.w3[e] < |m.w0|
    requires 0 <= Unhook(m, q, m.w2[e], m.w3[e]).w3[q] < |m.w0|
  {
    Append(Unhook(m, q, m.w2[e], m.w3[e]), q, e, due)
  }

  lemma RequeueQueue(m: Mem, q: nat, es: seq<nat>, k: nat, ms: int, now: int)
    requires QueueOk(m, q, es, ms, now) && k < |es| - 1
    ensures m.w3[es[k]] == es[k + 1] && m.w2[es[k]] < |m.w0|
    ensures 0 <= Unhook(m, q, m.w2[es[k]], m.w3[es[k]]).w3[q] < |m.w0|
    ensures QueueOk(Requeue(m, q, es[k], now + ms), q, Without(es, k) + [es[k]], ms, now)
  {
    UnhookQueue(m, q, es, k, ms, now);
    WithoutMembers(es, k);
    var m1 := Unhook(m, q, m.w2[es[k]], m.w3[es[k]]);
    var t := Without(es, k);
    assert m1.w3[q] == t[|t| - 1] && t[|t| - 1] in t;
    AppendQueue(m1, q, t, es[k], ms, now);
  }

  /** Re-arming the tail changes its time only. */
  lemma RearmTail(m: Mem, q: nat, es: seq<nat>, ms: int, now: int)
    requires QueueOk(m, q, es, ms, now)
    ensures QueueOk(m.(due := m.due[es[|es| - 1] := now + ms]), q, es, ms, now)
  {
  }

  lemma LastDropped(es: seq<nat>, e: nat)
    requires e in es && IndexOf(es, e) == |es| - 1
    ensures Drop(es, e) + [e] == es
  {
  }

  /** The tail stays where it is, due a full timeout from now. */
  lemma TailMoves(m: Mem, head: int, g: Queues, now: int, ms: int, e: nat)
    requires Timeouts(m, head, g, now) && ms in g.part && OneOk(m, g, ms, now)
    requires e in g.part[ms] && IndexOf(g.part[ms], e) == |g.part[ms]| - 1
    ensures e < |m.w0| && m.w3[e] == NULL
    ensures Timeouts(m.(due := m.due[e := now + ms]), head, g.(part := PartReset(g.part, ms, e)), now)
  {
    var es, q, k := g.part[ms], g.idx[ms], IndexOf(g.part[ms], e);
    assert m.w3[es[k]] == At(es, k + 1);
    LastDropped(es, e);
    RearmTail(m, q, es, ms, now);
    ReplaceQueue(m, m.(due := m.due[e := now + ms]), head, g, now, ms, es, e);
  }

  /** Any other event moves to the tail of its queue, due a full timeout from now. */
  lemma MiddleMoves(m: Mem, head: int, g: Queues, now: int, ms: int, e: nat)
    requires Timeouts(m, head, g, now) && ms in g.part && OneOk(m, g, ms, now)
    requires e in g.part[ms] && IndexOf(g.part[ms], e) < |g.part[ms]| - 1
    ensures e < |m.w0| && m.w2[e] < |m.w0| && 0 <= m.w3[e] < |m.w0|
    ensures 0 <= Unhook(m, g.idx[ms], m.w2[e], m.w3[e]).w3[g.idx[ms]] < |m.w0|
    ensures Timeouts(Requeue(m, g.idx[ms], e, now + ms), head, g.(part := PartReset(g.part, ms, e)), now)
  {
    var es, q, k := g.part[ms], g.idx[ms], IndexOf(g.part[ms], e);
    assert es[k] == e;
    WithoutMembers(es, k);
    RequeueQueue(m, q, es, k, ms, now);
    forall p: nat | p < |m.w0| && p != e && !InQueue(g, ms, p)
      ensures SameEvent(m, Requeue(m, q, e, now + ms), p)
    {
      RequeueFrame(m, q, es, k, now + ms, p);
    }
    ReplaceQueue(m, Requeue(m, q, e, now + ms), head, g, now, ms, Without(es, k) + [e], e);
  }

  lemma RequeueFrame(m: Mem, q: nat, es: seq<nat>, k: nat, due: int, p: nat)
    requires QueueLinks(m, q, es) && k < |es| - 1 && p < |m.w0| && p != q && p !in es
    requires m.w2[es[k]] < |m.w0| && m.w3[es[k]] < |m.w0|
    requires 0 <= Unhook(m, q, m.w2[es[k]], m.w3[es[k]]).w3[q] < |m.w0|
    ensures var m' := Requeue(m, q, es[k], due);
            m'.Sized(|m.w0|) && SameEvent(m, m', p)
  {
    UnhookFrame(m, q, es, k, p);
    UnhookStores(m, q, es, k);
    assert es[|es| - 1] in es;
  }

  // ---------------------------------------------------------------- timeout_process

  lemma FireFrame(m: Mem, q: nat, es: seq<nat>, ms: int, now: int, p: nat)
    requires QueueOk(m, q, es, ms, now) && p < |m.w0| && p != q && p !in es
    ensures SameEvent(m, Fire(m, q, es, ms, now), p)
  {
    var k := Ripe(m.due, es, now + MIN_TIMEOUT);
    RearmedAt(m.due, es[..k], now + ms);
    assert p !in es[..k];
    if 0 < k < |es| {
      assert es[|es| - 1] in es && es[0] in es && es[k] in es && es[k - 1] in es;
    }
  }

  /** One queue has fired: its ripe events are re-armed and stand behind the others. */
  lemma FireOne(m: Mem, head: int, g: Queues, now: int, ms: int)
    requires Timeouts(m, head, g, now) && ms in g.part && OneOk(m, g, ms, now)
    ensures Timeouts(Fire(m, g.idx[ms], g.part[ms], ms, now), head,
                     g.(part := g.part[ms := Fired(m, g.part[ms], now)]), now)
  {
    var es, q := g.part[ms], g.idx[ms];
    FireQueue(m, q, es, ms, now);
    RotateMembers(es, Ripe(m.due, es, now + MIN_TIMEOUT));
    forall p: nat | p < |m.w0| && p != es[0] && !InQueue(g, ms, p)
      ensures SameEvent(m, Fire(m, q, es, ms, now), p)
    {
      FireFrame(m, q, es, ms, now, p);
    }
    ReplaceQueue(m, Fire(m, q, es, ms, now), head, g, now, ms, Fired(m, es, now), es[0]);
  }

  /** Words 0 of slots that are no queues do not matter to the queues. */
  lemma OtherWords(m: Mem, head: int, g: Queues, now: int, w0: seq<int>)
    requires Timeouts(m, head, g, now) && |w0| == |m.w0|
    requires forall q :: q in g.tqs ==> w0[q] == m.w0[q]
    ensures Timeouts(m.(w0 := w0), head, g, now)
  {
    var m' := m.(w0 := w0);
    DllFrame(m.w0, m.w1, w0, m.w1, g.tqs);
    forall ms | ms in g.part
      ensures OneOk(m', g, ms, now)
    {
      assert OneOk(m, g, ms, now);
      QueueFrame(m, m', g.idx[ms], g.part[ms], ms, now, now);
    }
  }

  /** A slot in no queue may be overwritten. */
  lemma OtherSlot(m: Mem, m': Mem, head: int, g: Queues, now: int, p: nat)
    requires Timeouts(m, head, g, now) && m'.Sized(|m.w0|) && p < |m.w0| && Unqueued(g, p)
    requires forall x: nat :: x < |m.w0| && x != p ==> m'.w0[x] == m.w0[x] && m'.w1[x] == m.w1[x] && SameEvent(m, m', x)
    ensures Timeouts(m', head, g, now)
  {
    DllFrame(m.w0, m.w1, m'.w0, m'.w1, g.tqs);
    forall ms | ms in g.part
      ensures OneOk(m', g, ms, now)
    {
      assert OneOk(m, g, ms, now);
      forall x: nat | x == g.idx[ms] || x in g.part[ms]
        ensures x < |m.w0| && SameEvent(m, m', x)
      {
        assert x != p;
        assert m'.w0[x] == m.w0[x];
      }
      QueueFrame(m, m', g.idx[ms], g.part[ms], ms, now, now);
    }
  }

  /** A new slot changes nothing. */
  lemma GrownSlots(m: Mem, m': Mem, head: int, g: Queues, now: int)
    requires Timeouts(m, head, g, now) && m'.Sized(|m.w0| + 1)
    requires forall x: nat :: x < |m.w0| ==>
               m'.w0[x] == m.w0[x] && m'.w1[x] == m.w1[x] && m'.w2[x] == m.w2[x] && m'.w3[x] == m.w3[x]
               && m'.w4[x] == m.w4[x] && m'.due[x] == m.due[x]
    ensures Timeouts(m', head, g, now)
  {
    DllFrame(m.w0, m.w1, m'.w0, m'.w1, g.tqs);
    forall ms | ms in g.part
      ensures OneOk(m', g, ms, now)
    {
      assert OneOk(m, g, ms, now);
      QueueFrame(m, m', g.idx[ms], g.part[ms], ms, now, now);
    }
  }
}
