/**
 The timeout queues of src/event/timeout.c on values.  Slots are words shared by struct event and
 struct timeout_queue:  w0 next_ready / tq_prev,  w1 next_object / tq_next,  w2 prev / ev_head,
 w3 next / ev_tail,  w4 tq / msec;  due is timeout_at.
 */
module TimeoutLists {
  import opened Lists

  const MIN_TIMEOUT := 10

  datatype Mem = Mem(w0: seq<int>, w1: seq<int>, w2: seq<int>, w3: seq<int>, w4: seq<int>, due: seq<int>) {
    ghost predicate Sized(n: nat) {
      |w0| == |w1| == |w2| == |w3| == |w4| == |due| == n
    }
  }

  ghost predicate Sorted(due: seq<int>, es: seq<nat>)
    requires Within(es, |due|)
  {
    forall i, j :: 0 <= i <= j < |es| ==> due[es[i]] <= due[es[j]]
  }

  /** Queue slot `q` links the events `es` and they point back to it. */
  ghost predicate QueueLinks(m: Mem, q: int, es: seq<nat>) {
    && m.Sized(|m.w0|) && 0 <= q < |m.w0|
    && es != [] && q !in es && Dll(m.w2, m.w3, es)
    && m.w2[q] == es[0] && m.w3[q] == es[|es| - 1]
    && (forall e :: e in es ==> m.w4[e] == q)
  }

  /** Sorted by timeout_at, none of them after `bound`. */
  ghost predicate QueueDue(due: seq<int>, es: seq<nat>, bound: int) {
    Within(es, |due|) && Sorted(due, es) && forall e :: e in es ==> due[e] <= bound
  }

  ghost predicate QueueOk(m: Mem, q: int, es: seq<nat>, ms: int, now: int) {
    QueueLinks(m, q, es) && m.w4[q] == ms && QueueDue(m.due, es, now + ms)
  }

  lemma QueueFrame(m: Mem, m': Mem, q: int, es: seq<nat>, ms: int, now: int, now': int)
    requires QueueOk(m, q, es, ms, now) && m'.Sized(|m'.w0|) && |m'.w0| >= |m.w0| && now <= now'
    requires forall p: nat :: p == q || p in es ==>
               m'.w2[p] == m.w2[p] && m'.w3[p] == m.w3[p] && m'.w4[p] == m.w4[p] && m'.due[p] == m.due[p]
    ensures QueueOk(m', q, es, ms, now')
  {
    DllFrame(m.w2, m.w3, m'.w2, m'.w3, es);
  }

  // ---------------------------------------------------------------- what the operations mean

  function Drop(s: seq<nat>, e: nat): seq<nat>
    requires e in s
  {
    Without(s, IndexOf(s, e))
  }

  function EventsAt(part: map<int, seq<nat>>, ms: int): seq<nat> {
    if ms in part then part[ms] else []
  }

  /** The events by timeout after `e` has been appended to those of `ms`. */
  function PartAdd(part: map<int, seq<nat>>, ms: int, e: nat): map<int, seq<nat>> {
    part[ms := EventsAt(part, ms) + [e]]
  }

  function PartDel(part: map<int, seq<nat>>, ms: int, e: nat): map<int, seq<nat>>
    requires ms in part && e in part[ms]
  {
    if |part[ms]| == 1 then part - {ms} else part[ms := Drop(part[ms], e)]
  }

  function PartReset(part: map<int, seq<nat>>, ms: int, e: nat): map<int, seq<nat>>
    requires ms in part && e in part[ms]
  {
    part[ms := Drop(part[ms], e) + [e]]
  }

  lemma DropAt(s: seq<nat>, k: nat)
    requires Distinct(s) && k < |s|
    ensures IndexOf(s, s[k]) == k && Drop(s, s[k]) == Without(s, k)
  {
  }

  // ---------------------------------------------------------------- unlinking an event

  /** The stores that take an event between `p` and `n` out of queue `q`. */
  function Unhook(m: Mem, q: nat, p: int, n: int): (r: Mem)
    requires p < |m.w3| && n < |m.w2| && q < |m.w2| && q < |m.w3|
    ensures r.w0 == m.w0 && r.w1 == m.w1 && r.w4 == m.w4 && r.due == m.due
  {
    var w2 := if p >= 0 then m.w2 else m.w2[q := n];
    var w3 := if p >= 0 then m.w3[p := n] else m.w3;
    m.(w2 := if n >= 0 then w2[n := p] else w2, w3 := if n >= 0 then w3 else w3[q := p])
  }

  lemma UnhookLinks(m: Mem, q: nat, es: seq<nat>, k: nat)
    requires QueueLinks(m, q, es) && k < |es| && |es| > 1
    ensures m.w2[es[k]] == At(es, k - 1) && m.w3[es[k]] == At(es, k + 1)
    ensures QueueLinks(Unhook(m, q, At(es, k - 1), At(es, k + 1)), q, Without(es, k))
  {
    var p, n := At(es, k - 1), At(es, k + 1);
    var t := Without(es, k);
    DllRemove(m.w2, m.w3, es, k);
    WithoutMembers(es, k);
    WithoutAt(es, k, 0);
    WithoutAt(es, k, |t| - 1);
    UnhookStores(m, q, es, k);
    var m' := Unhook(m, q, p, n);
    DllFrame(Unlink(m.w2, n, p), Unlink(m.w3, p, n), m'.w2, m'.w3, t);
  }

  /** Apart from the head and tail fields, the stores are those of DllRemove. */
  lemma UnhookStores(m: Mem, q: nat, es: seq<nat>, k: nat)
    requires QueueLinks(m, q, es) && k < |es| && |es| > 1
    ensures var p, n := At(es, k - 1), At(es, k + 1);
            var m' := Unhook(m, q, p, n);
            && |m'.w2| == |m'.w3| == |m.w2|
            && (forall x: nat :: x < |m.w2| && x != q ==>
                  m'.w2[x] == Unlink(m.w2, n, p)[x] && m'.w3[x] == Unlink(m.w3, p, n)[x])
            && m'.w2[q] == (if k == 0 then es[1] else es[0])
            && m'.w3[q] == (if k == |es| - 1 then es[k - 1] else es[|es| - 1])
  {
    var p, n := At(es, k - 1), At(es, k + 1);
    assert p != q && n != q;
    if k == 0 {
      assert p == NULL && n == es[1];
    } else if k == |es| - 1 {
      assert n == NULL && p == es[k - 1];
    } else {
      assert p == es[k - 1] && n == es[k + 1];
    }
  }

  lemma WithoutDue(due: seq<int>, es: seq<nat>, k: nat, bound: int)
    requires QueueDue(due, es, bound) && Distinct(es) && k < |es|
    ensures QueueDue(due, Without(es, k), bound)
  {
    var t := Without(es, k);
    WithoutMembers(es, k);
    forall i | 0 <= i < |t|
      ensures t[i] == es[if i < k then i else i + 1]
    {
      WithoutAt(es, k, i);
    }
  }

  lemma UnhookQueue(m: Mem, q: nat, es: seq<nat>, k: nat, ms: int, now: int)
    requires QueueOk(m, q, es, ms, now) && k < |es| && |es| > 1
    ensures m.w2[es[k]] == At(es, k - 1) && m.w3[es[k]] == At(es, k + 1)
    ensures QueueOk(Unhook(m, q, At(es, k - 1), At(es, k + 1)), q, Without(es, k), ms, now)
  {
    UnhookLinks(m, q, es, k);
    WithoutDue(m.due, es, k, now + ms);
  }

  // ---------------------------------------------------------------- appending an event

  function Append(m: Mem, q: nat, e: nat, due: int): (r: Mem)
    requires m.Sized(|m.w0|) && q < |m.w0| && e < |m.w0| && 0 <= m.w3[q] < |m.w0|
    ensures r.w0 == m.w0 && r.w1 == m.w1
  {
    var last := m.w3[q];
    m.(w2 := m.w2[e := last], w3 := m.w3[last := e][q := e][e := NULL], w4 := m.w4[e := q], due := m.due[e := due])
  }

  lemma AppendQueue(m: Mem, q: nat, es: seq<nat>, e: nat, ms: int, now: int)
    requires QueueOk(m, q, es, ms, now) && e < |m.w0| && e !in es && e != q
    ensures QueueOk(Append(m, q, e, now + ms), q, es + [e], ms, now)
  {
    var m' := Append(m, q, e, now + ms);
    DllAppend(m.w2, m.w3, es, e);
    DllFrame(m.w2[e := es[|es| - 1]], m.w3[es[|es| - 1] := e][e := NULL], m'.w2, m'.w3, es + [e]);
    var t := es + [e];
    forall i, j | 0 <= i <= j < |t|
      ensures m'.due[t[i]] <= m'.due[t[j]]
    {
      if j < |es| { assert t[i] == es[i] && t[j] == es[j]; }
    }
  }

  // ---------------------------------------------------------------- process: one queue

  /** How many events at the front of the queue are due before `limit`. */
  function Ripe(due: seq<int>, es: seq<nat>, limit: int): (k: nat)
    requires Within(es, |due|)
    ensures k <= |es|
    ensures forall i :: 0 <= i < k ==> due[es[i]] < limit
    ensures k < |es| ==> due[es[k]] >= limit
  {
    if es == [] || due[es[0]] >= limit then 0 else 1 + Ripe(due, es[1..], limit)
  }

  /** In a sorted queue the ripe prefix is every ripe event. */
  lemma RipeIsAll(due: seq<int>, es: seq<nat>, limit: int)
    requires Within(es, |due|) && Sorted(due, es)
    ensures forall i :: 0 <= i < |es| ==> (due[es[i]] < limit <==> i < Ripe(due, es, limit))
  {
    var k := Ripe(due, es, limit);
    if k < |es| {
      assert forall i :: k <= i < |es| ==> due[es[k]] <= due[es[i]];
    }
  }

  /** `due` with the events `fired` re-armed to `at`. */
  function Rearm(due: seq<int>, fired: seq<nat>, at: int): (r: seq<int>)
    requires Within(fired, |due|)
    ensures |r| == |due|
    decreases |fired|
  {
    if fired == [] then due else Rearm(due, fired[..|fired| - 1], at)[fired[|fired| - 1] := at]
  }

  lemma {:induction false} RearmedAt(due: seq<int>, fired: seq<nat>, at: int)
    requires Within(fired, |due|)
    ensures forall p {:trigger Rearm(due, fired, at)[p]} :: 0 <= p < |due| ==>
              Rearm(due, fired, at)[p] == if p in fired then at else due[p]
    decreases |fired|
  {
    if fired != [] {
      var k := |fired| - 1;
      RearmedAt(due, fired[..k], at);
      assert fired == fired[..k] + [fired[k]];
    }
  }

  /** The stores that move the first `k` events of queue `q` behind the others. */
  function Recycle(m: Mem, q: nat, es: seq<nat>, k: nat): (r: Mem)
    requires m.Sized(|m.w0|) && q < |m.w0| && Within(es, |m.w0|) && 0 < k < |es|
    ensures r.w0 == m.w0 && r.w1 == m.w1 && r.w4 == m.w4 && r.due == m.due && r.Sized(|m.w0|)
  {
    m.(w2 := m.w2[q := es[k]][es[k] := NULL][es[0] := es[|es| - 1]],
       w3 := m.w3[es[|es| - 1] := es[0]][q := es[k - 1]][es[k - 1] := NULL])
  }

  function Fire(m: Mem, q: nat, es: seq<nat>, ms: int, now: int): (r: Mem)
    requires m.Sized(|m.w0|) && q < |m.w0| && Within(es, |m.w0|)
    ensures r.w0 == m.w0 && r.w1 == m.w1 && r.w4 == m.w4 && r.Sized(|m.w0|)
  {
    var k := Ripe(m.due, es, now + MIN_TIMEOUT);
    var m1 := m.(due := Rearm(m.due, es[..k], now + ms));
    if 0 < k < |es| then Recycle(m1, q, es, k) else m1
  }

  /** The queue after its ripe events have fired: they stand behind the others, re-armed. */
  function Fired(m: Mem, es: seq<nat>, now: int): seq<nat>
    requires Within(es, |m.due|)
  {
    var k := Ripe(m.due, es, now + MIN_TIMEOUT);
    es[k..] + es[..k]
  }

  lemma RecycleLinks(m: Mem, q: nat, es: seq<nat>, k: nat)
    requires QueueLinks(m, q, es) && 0 < k < |es|
    ensures QueueLinks(Recycle(m, q, es, k), q, es[k..] + es[..k])
  {
    var m', t := Recycle(m, q, es, k), es[k..] + es[..k];
    RotateMembers(es, k);
    DllRotate(m.w2, m.w3, es, k);
    DllFrame(m.w2[es[k] := NULL][es[0] := es[|es| - 1]], m.w3[es[|es| - 1] := es[0]][es[k - 1] := NULL],
             m'.w2, m'.w3, t);
    assert t[0] == es[k] && t[|t| - 1] == es[k - 1];
  }

  lemma FireQueue(m: Mem, q: nat, es: seq<nat>, ms: int, now: int)
    requires QueueOk(m, q, es, ms, now)
    ensures QueueOk(Fire(m, q, es, ms, now), q, Fired(m, es, now), ms, now)
  {
    FireLinks(m, q, es, ms, now);
    FireSorted(m.due, es, now + ms, Ripe(m.due, es, now + MIN_TIMEOUT));
    FireDue(m, q, es, ms, now);
  }

  lemma FireLinks(m: Mem, q: nat, es: seq<nat>, ms: int, now: int)
    requires QueueLinks(m, q, es) && Within(es, |m.due|)
    ensures QueueLinks(Fire(m, q, es, ms, now), q, Fired(m, es, now))
  {
    var k := Ripe(m.due, es, now + MIN_TIMEOUT);
    var m1 := m.(due := Rearm(m.due, es[..k], now + ms));
    assert QueueLinks(m1, q, es);
    if 0 < k < |es| {
      RecycleLinks(m1, q, es, k);
    } else {
      assert es[k..] + es[..k] == es;
    }
  }

  lemma FireDue(m: Mem, q: nat, es: seq<nat>, ms: int, now: int)
    requires m.Sized(|m.w0|) && q < |m.w0| && Within(es, |m.w0|)
    ensures Fire(m, q, es, ms, now).due == Rearm(m.due, es[..Ripe(m.due, es, now + MIN_TIMEOUT)], now + ms)
  {
  }

  /** Moving a prefix behind the rest and re-arming it to the bound keeps the order. */
  lemma FireSorted(due: seq<int>, es: seq<nat>, bound: int, k: nat)
    requires QueueDue(due, es, bound) && Distinct(es) && k <= |es|
    ensures QueueDue(Rearm(due, es[..k], bound), es[k..] + es[..k], bound)
  {
    var due', t := Rearm(due, es[..k], bound), es[k..] + es[..k];
    RearmedAt(due, es[..k], bound);
    forall i | 0 <= i < |t|
      ensures t[i] < |due'| && due'[t[i]] == if i < |es| - k then due[es[i + k]] else bound
    {
      if i < |es| - k {
        assert t[i] == es[i + k] && es[i + k] !in es[..k];
      } else {
        assert t[i] == es[..k][i - (|es| - k)];
      }
    }
  }
}
