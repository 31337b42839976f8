/** timeout_reset, timeout_process and timeout_get of src/event/timeout.c on the state of an event queue. */
module EventProcess {
  import opened Lists
  import opened TimeoutLists
  import opened TimeoutState
  import opened EventSlots
  import opened EventState

  // ---------------------------------------------------------------- timeout_reset

  ghost predicate Resettable(s: State, e: nat) {
    && s.mem.Sized(|s.v.role|) && IsEvent(s, e) && 0 <= s.mem.w4[e] < |s.v.role|
    && s.mem.w2[e] < |s.v.role| && s.mem.w3[e] < |s.v.role|
    && (s.mem.w3[e] != NULL ==> 0 <= Unhook(s.mem, s.mem.w4[e], s.mem.w2[e], s.mem.w3[e]).w3[s.mem.w4[e]] < |s.v.role|)
    && TimeoutOf(s.mem, e) in s.v.q.part && e in s.v.q.part[TimeoutOf(s.mem, e)]
  }

  /** The event is due a full timeout after `now`, at the tail of its queue. */
  ghost function Reset(s: State, e: nat): State
    requires Resettable(s, e)
  {
    var ms := TimeoutOf(s.mem, e);
    s.(mem := if s.mem.w3[e] == NULL then s.mem.(due := s.mem.due[e := s.now + ms])
              else Requeue(s.mem, s.mem.w4[e], e, s.now + ms),
       v := s.v.(q := s.v.q.(part := PartReset(s.v.q.part, ms, e))))
  }

  lemma ResetKeeps(s: State, e: nat)
    requires Inv(s) && IsEvent(s, e) && s.mem.Sized(|s.v.role|) && s.mem.w4[e] != NULL
    ensures Resettable(s, e) && Inv(Reset(s, e))
  {
    var ms, k := Queued(s, e);
    if k == |s.v.q.part[ms]| - 1 {
      ResetTail(s, e, ms);
      TailIsReset(s, e, ms);
    } else {
      ResetMiddle(s, e, ms);
      MiddleIsReset(s, e, ms);
    }
  }

  ghost predicate Situated(s: State, e: nat, ms: int) {
    && s.mem.Sized(|s.v.role|) && IsEvent(s, e) && 0 <= s.mem.w4[e] < |s.v.role|
    && s.mem.w2[e] < |s.v.role| && s.mem.w3[e] < |s.v.role|
    && ms == TimeoutOf(s.mem, e) && ms in s.v.q.part && e in s.v.q.part[ms]
  }

  lemma TailIsReset(s: State, e: nat, ms: int)
    requires Situated(s, e, ms) && s.mem.w3[e] == NULL
    ensures Resettable(s, e) && Reset(s, e) == Moved(s, s.mem.(due := s.mem.due[e := s.now + ms]), ms, e)
  {
  }

  lemma MiddleIsReset(s: State, e: nat, ms: int)
    requires Situated(s, e, ms) && s.mem.w3[e] != NULL
    requires 0 <= Unhook(s.mem, s.mem.w4[e], s.mem.w2[e], s.mem.w3[e]).w3[s.mem.w4[e]] < |s.v.role|
    ensures Resettable(s, e) && Reset(s, e) == Moved(s, Requeue(s.mem, s.mem.w4[e], e, s.now + ms), ms, e)
  {
  }

  /** The state with the event moved to the tail of queue `ms` and `m` for its words. */
  ghost function Moved(s: State, m: Mem, ms: int, e: nat): State
    requires ms in s.v.q.part && e in s.v.q.part[ms]
  {
    s.(mem := m, v := s.v.(q := s.v.q.(part := PartReset(s.v.q.part, ms, e))))
  }

  lemma ResetTail(s: State, e: nat, ms: int)
    requires Inv(s) && ms in s.v.q.part && e in s.v.q.part[ms] && Distinct(s.v.q.part[ms])
    requires IndexOf(s.v.q.part[ms], e) == |s.v.q.part[ms]| - 1
    ensures e < |s.mem.due| == |s.mem.w3| && s.mem.w3[e] == NULL
    ensures Inv(Moved(s, s.mem.(due := s.mem.due[e := s.now + ms]), ms, e))
  {
    TailQueues(s, e, ms);
    Reordered(s, s.mem.(due := s.mem.due[e := s.now + ms]), ms, e);
  }

  lemma TailQueues(s: State, e: nat, ms: int)
    requires Inv(s) && ms in s.v.q.part && e in s.v.q.part[ms]
    requires IndexOf(s.v.q.part[ms], e) == |s.v.q.part[ms]| - 1
    ensures e < |s.mem.due| == |s.mem.w3| && s.mem.w3[e] == NULL
    ensures var s' := Moved(s, s.mem.(due := s.mem.due[e := s.now + ms]), ms, e);
            Holds(QueueList, s') && Holds(Contents, s')
  {
    assert Holds(QueueList, s) && Holds(Contents, s);
    assert OneOk(s.mem, s.v.q, ms, s.now);
    TailMoves(s.mem, s.tqHead, s.v.q, s.now, ms, e);
    MovedHolds(s, s.mem.(due := s.mem.due[e := s.now + ms]), ms, e);
  }

  ghost predicate Middle(s: State, e: nat, ms: int) {
    && ms in s.v.q.part && ms in s.v.q.idx && e in s.v.q.part[ms]
    && IndexOf(s.v.q.part[ms], e) < |s.v.q.part[ms]| - 1
    && s.mem.Sized(|s.mem.w0|) && e < |s.mem.w4| && s.mem.w4[e] == s.v.q.idx[ms]
  }

  lemma ResetMiddle(s: State, e: nat, ms: int)
    requires Inv(s) && Middle(s, e, ms) && Distinct(s.v.q.part[ms])
    ensures var n, q := |s.mem.w0|, s.v.q.idx[ms];
            && q < n && s.mem.w2[e] < n && 0 <= s.mem.w3[e] < n
            && 0 <= Unhook(s.mem, q, s.mem.w2[e], s.mem.w3[e]).w3[q] < n
    ensures Inv(Moved(s, Requeue(s.mem, s.v.q.idx[ms], e, s.now + ms), ms, e))
  {
    MiddleQueues(s, e, ms);
    RequeueWords(s.mem, s.v.q.idx[ms], e, s.now + ms);
    Reordered(s, Requeue(s.mem, s.v.q.idx[ms], e, s.now + ms), ms, e);
  }

  lemma MiddleQueues(s: State, e: nat, ms: int)
    requires Inv(s) && Middle(s, e, ms)
    ensures var n, q := |s.mem.w0|, s.v.q.idx[ms];
            && q < n && s.mem.w2[e] < n && 0 <= s.mem.w3[e] < n
            && 0 <= Unhook(s.mem, q, s.mem.w2[e], s.mem.w3[e]).w3[q] < n
    ensures var s' := Moved(s, Requeue(s.mem, s.v.q.idx[ms], e, s.now + ms), ms, e);
            Holds(QueueList, s') && Holds(Contents, s')
  {
    assert Holds(QueueList, s) && Holds(Contents, s);
    assert OneOk(s.mem, s.v.q, ms, s.now);
    MiddleHolds(s, e, ms);
  }

  lemma MiddleHolds(s: State, e: nat, ms: int)
    requires Middle(s, e, ms) && Timeouts(s.mem, s.tqHead, s.v.q, s.now) && OneOk(s.mem, s.v.q, ms, s.now)
    ensures var n, q := |s.mem.w0|, s.v.q.idx[ms];
            && q < n && s.mem.w2[e] < n && 0 <= s.mem.w3[e] < n
            && 0 <= Unhook(s.mem, q, s.mem.w2[e], s.mem.w3[e]).w3[q] < n
    ensures var s' := Moved(s, Requeue(s.mem, s.v.q.idx[ms], e, s.now + ms), ms, e);
            Holds(QueueList, s') && Holds(Contents, s')
  {
    MiddleMoves(s.mem, s.tqHead, s.v.q, s.now, ms, e);
  }

  /** The clauses on the queues speak of these fields only. */
  lemma MovedHolds(s: State, m: Mem, ms: int, e: nat)
    requires ms in s.v.q.part && e in s.v.q.part[ms]
    requires Timeouts(m, s.tqHead, s.v.q.(part := PartReset(s.v.q.part, ms, e)), s.now)
    ensures Holds(QueueList, Moved(s, m, ms, e)) && Holds(Contents, Moved(s, m, ms, e))
  {
  }

  lemma RequeueWords(m: Mem, q: nat, e: nat, due: int)
    requires m.Sized(|m.w0|) && q < |m.w0| && e < |m.w0| && m.w2[e] < |m.w0| && m.w3[e] < |m.w0|
    requires 0 <= Unhook(m, q, m.w2[e], m.w3[e]).w3[q] < |m.w0| && m.w4[e] == q
    ensures Requeue(m, q, e, due).w0 == m.w0 && Requeue(m, q, e, due).w4 == m.w4
  {
  }

  /** Links and times being in order again, so is everything else. */
  lemma Reordered(s: State, m: Mem, ms: int, e: nat)
    requires Inv(s) && ms in s.v.q.part && m.w0 == s.mem.w0 && m.w4 == s.mem.w4
    requires e in s.v.q.part[ms] && Distinct(s.v.q.part[ms]) && m.Sized(|m.w0|)
    requires Holds(QueueList, Moved(s, m, ms, e)) && Holds(Contents, Moved(s, m, ms, e))
    ensures Inv(Moved(s, m, ms, e))
  {
    Facts(s);
    var es, s' := s.v.q.part[ms], Moved(s, m, ms, e);
    DropAt(es, IndexOf(es, e));
    WithoutMembers(es, IndexOf(es, e));
    SlotsReorder(s.v, s.mem.w4, s.flags, s.attached, s.evId, ms, Drop(es, e) + [e]);
    forall c
      ensures Holds(c, s')
    {
      match c {
        case Sizes =>
        case Chains =>
        case QueueList =>
        case Contents =>
        case Slots =>
        case Lookup =>
      }
    }
  }

  // ---------------------------------------------------------------- timeout_process

  function Reversed(s: seq<nat>): (r: seq<nat>)
    ensures |r| == |s|
  {
    if s == [] then [] else [s[|s| - 1]] + Reversed(s[..|s| - 1])
  }

  lemma {:induction false} ReversedMembers(s: seq<nat>)
    ensures forall p {:trigger p in Reversed(s)} {:trigger p in s} :: p in Reversed(s) <==> p in s
  {
    if s != [] {
      ReversedMembers(s[..|s| - 1]);
      assert s == s[..|s| - 1] + [s[|s| - 1]];
    }
  }

  /** next_ready after the slots `fired` have been pushed one after another. */
  function Pushed(w0: seq<int>, head: int, fired: seq<nat>): (r: seq<int>)
    requires Within(fired, |w0|)
    ensures |r| == |w0|
    decreases |fired|
  {
    if fired == [] then w0
    else
      var k := |fired| - 1;
      Pushed(w0, head, fired[..k])[fired[k] := if k == 0 then head else fired[k - 1]]
  }

  lemma {:induction false} PushedElsewhere(w0: seq<int>, head: int, fired: seq<nat>)
    requires Within(fired, |w0|)
    ensures forall p: nat {:trigger Pushed(w0, head, fired)[p]} ::
              p < |w0| && p !in fired ==> Pushed(w0, head, fired)[p] == w0[p]
    decreases |fired|
  {
    if fired != [] {
      var k := |fired| - 1;
      PushedElsewhere(w0, head, fired[..k]);
      assert fired == fired[..k] + [fired[k]];
    }
  }

  function Marked(flags: seq<Flags>, fired: seq<nat>): (r: seq<Flags>)
    requires Within(fired, |flags|)
    ensures |r| == |flags|
    decreases |fired|
  {
    if fired == [] then flags
    else
      var k := |fired| - 1;
      var m := Marked(flags, fired[..k]);
      m[fired[k] := m[fired[k]].(active := true, timeoutRes := true)]
  }

  lemma {:induction false} MarkedAt(flags: seq<Flags>, fired: seq<nat>)
    requires Within(fired, |flags|)
    ensures forall p: nat {:trigger Marked(flags, fired)[p]} :: p < |flags| ==>
              Marked(flags, fired)[p] == if p in fired then flags[p].(active := true, timeoutRes := true) else flags[p]
    decreases |fired|
  {
    if fired != [] {
      var k := |fired| - 1;
      MarkedAt(flags, fired[..k]);
      assert fired == fired[..k] + [fired[k]];
    }
  }

  function Ready(fired: seq<nat>, head: int): int {
    if fired == [] then head else fired[|fired| - 1]
  }

  lemma {:induction false} PushedChains(w0: seq<int>, f: int, s: int, r: int, v: View, fired: seq<nat>)
    requires ChainsOk(w0, f, s, r, v) && Within(fired, |w0|) && Distinct(fired)
    requires forall p :: p in fired ==> p !in v.free && p !in v.sync && p !in v.ready
    ensures ChainsOk(Pushed(w0, r, fired), f, s, Ready(fired, r), v.(ready := Reversed(fired) + v.ready))
    decreases |fired|
  {
    if fired == [] {
      assert Reversed(fired) + v.ready == v.ready;
    } else {
      var k := |fired| - 1;
      var t := fired[..k];
      assert fired == t + [fired[k]];
      ReversedMembers(t);
      PushedChains(w0, f, s, r, v, t);
      var v1 := v.(ready := Reversed(t) + v.ready);
      PushReady(Pushed(w0, r, t), f, s, Ready(t, r), v1, fired[k]);
      assert [fired[k]] + (Reversed(t) + v.ready) == Reversed(fired) + v.ready;
    }
  }

  ghost predicate Fireable(s: State, ms: int) {
    && s.mem.Sized(|s.v.role|) && |s.flags| == |s.v.role|
    && ms in s.v.q.part && ms in s.v.q.idx && s.v.q.idx[ms] < |s.v.role| && Within(s.v.q.part[ms], |s.v.role|)
  }

  /** The events of queue `ms` that are due. */
  ghost function RipeOf(s: State, ms: int): (r: seq<nat>)
    requires Fireable(s, ms)
    ensures Within(r, |s.v.role|)
  {
    s.v.q.part[ms][..Ripe(s.mem.due, s.v.q.part[ms], s.now + MIN_TIMEOUT)]
  }

  /** What one queue firing leaves, `k` events being due, with `w0`, `due` and `flags` for the arrays pushed through. */
  ghost function FireWith(s: State, ms: int, k: nat, w0: seq<int>, due: seq<int>, flags: seq<Flags>): State
    requires Fireable(s, ms) && k <= |s.v.q.part[ms]| && |w0| == |due| == |flags| == |s.v.role|
  {
    var q, es, m := s.v.q.idx[ms], s.v.q.part[ms], s.mem.(due := due);
    s.(mem := (if 0 < k < |es| then Recycle(m, q, es, k) else m).(w0 := w0),
       evReady := if k == 0 then s.evReady else es[k - 1], flags := flags)
  }

  /** One queue fires: its due events are marked, re-armed, pushed on the ready list and moved to the tail. */
  ghost function FireState(s: State, ms: int): State
    requires Fireable(s, ms)
  {
    var fired, es := RipeOf(s, ms), s.v.q.part[ms];
    var w0, due, flags := Pushed(s.mem.w0, s.evReady, fired), Rearm(s.mem.due, fired, s.now + ms), Marked(s.flags, fired);
    FireWith(s, ms, Ripe(s.mem.due, es, s.now + MIN_TIMEOUT), w0, due, flags)
      .(v := s.v.(ready := Reversed(fired) + s.v.ready, q := s.v.q.(part := s.v.q.part[ms := Fired(s.mem, es, s.now)])))
  }

  lemma FireStateWords(s: State, ms: int)
    requires Fireable(s, ms)
    ensures FireState(s, ms).mem
            == Fire(s.mem, s.v.q.idx[ms], s.v.q.part[ms], ms, s.now).(w0 := Pushed(s.mem.w0, s.evReady, RipeOf(s, ms)))
    ensures FireState(s, ms).evReady == Ready(RipeOf(s, ms), s.evReady)
    ensures FireState(s, ms).flags == Marked(s.flags, RipeOf(s, ms))
  {
    var es, k := s.v.q.part[ms], Ripe(s.mem.due, s.v.q.part[ms], s.now + MIN_TIMEOUT);
    assert RipeOf(s, ms) == es[..k] && |es[..k]| == k;
  }

  /** The due events are on the ready list and re-armed; the times of others stay. */
  lemma FiredEvents(s: State, ms: int)
    requires Fireable(s, ms)
    ensures |FireState(s, ms).mem.due| == |s.mem.due|
    ensures forall e: nat {:trigger FireState(s, ms).mem.due[e]} :: e < |s.mem.due| ==>
              FireState(s, ms).mem.due[e] == if e in RipeOf(s, ms) then s.now + ms else s.mem.due[e]
    ensures forall e {:trigger e in FireState(s, ms).v.ready} ::
              e in FireState(s, ms).v.ready <==> e in RipeOf(s, ms) || e in s.v.ready
  {
    FireStateWords(s, ms);
    RearmedAt(s.mem.due, RipeOf(s, ms), s.now + ms);
    ReversedMembers(RipeOf(s, ms));
  }

  /** None of the queue's events is on the ready list. */
  ghost predicate Calm(s: State, ms: int)
    requires ms in s.v.q.part
  {
    forall e :: e in s.v.q.part[ms] ==> e !in s.v.ready
  }

  lemma FireKeeps(s: State, ms: int)
    requires Inv(s) && ms in s.v.q.part && Calm(s, ms)
    ensures Fireable(s, ms) && Inv(FireState(s, ms))
    ensures FireState(s, ms).mem.w4 == s.mem.w4
  {
    Facts(s);
    assert OneOk(s.mem, s.v.q, ms, s.now);
    var s' := FireState(s, ms);
    FiredQueues(s, ms);
    FiredSlots(s, ms);
    FiredChains(s, ms);
    forall c
      ensures Holds(c, s')
    {
      match c {
        case Sizes => assert Holds(Sizes, s);
        case Chains =>
        case QueueList =>
        case Contents =>
        case Slots =>
        case Lookup => assert Holds(Lookup, s);
      }
    }
  }

  /** An event of a queue is on no chain but perhaps the ready list. */
  lemma QueuedLoose(s: State, ms: int, p: nat)
    requires Inv(s) && ms in s.v.q.part && p in s.v.q.part[ms]
    ensures p !in s.v.free && p !in s.v.sync
  {
    assert Holds(Slots, s) && Holds(Contents, s) && Holds(Sizes, s);
    assert OneOk(s.mem, s.v.q, ms, s.now);
    assert SlotOk(p, s.v, s.mem.w4, s.flags, s.attached, s.evId);
  }

  /** The events that fire are on no chain. */
  lemma FiredLoose(s: State, ms: int)
    requires Inv(s) && ms in s.v.q.part && Fireable(s, ms) && Calm(s, ms)
    ensures Distinct(RipeOf(s, ms)) && Within(RipeOf(s, ms), |s.mem.w0|)
    ensures forall p :: p in RipeOf(s, ms) ==> p !in s.v.free && p !in s.v.sync && p !in s.v.ready
  {
    assert Holds(Contents, s);
    assert OneOk(s.mem, s.v.q, ms, s.now);
    forall p | p in RipeOf(s, ms)
      ensures p !in s.v.free && p !in s.v.sync && p !in s.v.ready
    {
      assert p in s.v.q.part[ms];
      QueuedLoose(s, ms, p);
    }
  }

  lemma FiredChains(s: State, ms: int)
    requires Inv(s) && ms in s.v.q.part && Fireable(s, ms) && Calm(s, ms)
    ensures Holds(Chains, FireState(s, ms))
  {
    assert Holds(Chains, s);
    FiredLoose(s, ms);
    FireStateWords(s, ms);
    PushedChains(s.mem.w0, s.evFree, s.syncOp, s.evReady, s.v, RipeOf(s, ms));
  }

  lemma FiredQueues(s: State, ms: int)
    requires Inv(s) && ms in s.v.q.part && Fireable(s, ms)
    ensures FireState(s, ms).mem.Sized(|s.v.role|) && FireState(s, ms).mem.w4 == s.mem.w4
    ensures Holds(QueueList, FireState(s, ms)) && Holds(Contents, FireState(s, ms))
  {
    assert Holds(Sizes, s) && Holds(QueueList, s) && Holds(Contents, s);
    assert OneOk(s.mem, s.v.q, ms, s.now);
    var es := s.v.q.part[ms];
    FireOne(s.mem, s.tqHead, s.v.q, s.now, ms);
    assert forall p :: p in RipeOf(s, ms) ==> p in es;
    FireStateWords(s, ms);
    PushedElsewhere(s.mem.w0, s.evReady, RipeOf(s, ms));
    OtherWords(Fire(s.mem, s.v.q.idx[ms], es, ms, s.now), s.tqHead,
               s.v.q.(part := s.v.q.part[ms := Fired(s.mem, es, s.now)]), s.now, FireState(s, ms).mem.w0);
  }

  lemma FiredSlots(s: State, ms: int)
    requires Inv(s) && ms in s.v.q.part && Fireable(s, ms)
    ensures Holds(Slots, FireState(s, ms))
  {
    assert Holds(Slots, s) && Holds(Contents, s);
    assert OneOk(s.mem, s.v.q, ms, s.now);
    FiredMembers(s, ms);
    FireStateWords(s, ms);
    SlotsFired(s.v, s.mem.w4, s.flags, s.attached, s.evId, ms, Fired(s.mem, s.v.q.part[ms], s.now), RipeOf(s, ms));
  }

  lemma FiredMembers(s: State, ms: int)
    requires Fireable(s, ms) && Distinct(s.v.q.part[ms])
    ensures forall p :: p in Fired(s.mem, s.v.q.part[ms], s.now) <==> p in s.v.q.part[ms]
    ensures forall p :: p in RipeOf(s, ms) ==> p in s.v.q.part[ms]
  {
    RotateMembers(s.v.q.part[ms], Ripe(s.mem.due, s.v.q.part[ms], s.now + MIN_TIMEOUT));
  }

  lemma SlotsFired(v: View, w4: seq<int>, flags: seq<Flags>, attached: seq<bool>, evId: seq<int>,
                   ms: int, es: seq<nat>, fired: seq<nat>)
    requires SlotsOk(v, w4, flags, attached, evId) && ms in v.q.part && Within(fired, |flags|)
    requires forall p :: p in es <==> p in v.q.part[ms]
    requires forall p :: p in fired ==> p in v.q.part[ms]
    ensures SlotsOk(v.(ready := Reversed(fired) + v.ready, q := v.q.(part := v.q.part[ms := es])),
                    w4, Marked(flags, fired), attached, evId)
  {
    var v' := v.(ready := Reversed(fired) + v.ready, q := v.q.(part := v.q.part[ms := es]));
    var flags' := Marked(flags, fired);
    MarkedAt(flags, fired);
    ReversedMembers(fired);
    forall p: nat | p < |v.role|
      ensures SlotOk(p, v', w4, flags', attached, evId)
    {
      assert SlotOk(p, v, w4, flags, attached, evId);
    }
  }
}
