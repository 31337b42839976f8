/**
 What the operations on one event do: the queue it is in afterwards and when it is due, its flags, whether it
 is ready; and that all other events keep their queues, their order, their times and flags.
 */
module EventEffects {
  import opened Lists
  import opened TimeoutLists
  import opened TimeoutState
  import opened EventSlots
  import opened EventState
  import opened EventProcess
  import opened EventExpiry
  import opened EventOps
  import opened EventCalls
  import opened EventLookup

  // ---------------------------------------------------------------- the other events of a queue

  /** The events `es` without `e`, in their order. */
  function Others(es: seq<nat>, e: nat): seq<nat> {
    if es == [] then [] else (if es[0] == e then [] else [es[0]]) + Others(es[1..], e)
  }

  lemma {:induction false} OthersJoin(a: seq<nat>, b: seq<nat>, e: nat)
    ensures Others(a + b, e) == Others(a, e) + Others(b, e)
    decreases |a|
  {
    if a == [] {
      assert a + b == b;
    } else {
      assert (a + b)[1..] == a[1..] + b;
      OthersJoin(a[1..], b, e);
    }
  }

  lemma {:induction false} OthersAll(es: seq<nat>, e: nat)
    requires e !in es
    ensures Others(es, e) == es
    decreases |es|
  {
    if es != [] {
      assert es == [es[0]] + es[1..];
      OthersAll(es[1..], e);
    }
  }

  lemma OthersAppend(es: seq<nat>, e: nat)
    ensures Others(es + [e], e) == Others(es, e)
  {
    OthersJoin(es, [e], e);
    assert [e][1..] == [];
  }

  lemma OthersDrop(es: seq<nat>, e: nat)
    requires e in es
    ensures Others(Drop(es, e), e) == Others(es, e)
  {
    var k := IndexOf(es, e);
    assert es == es[..k] + [e] + es[k + 1..];
    OthersAppend(es[..k], e);
    OthersJoin(es[..k] + [e], es[k + 1..], e);
    OthersJoin(es[..k], es[k + 1..], e);
  }

  /** Every queue has the events it had, in their order, `e` aside. */
  ghost predicate QueuesKeep(part: map<int, seq<nat>>, part': map<int, seq<nat>>, e: nat) {
    forall ms {:trigger EventsAt(part', ms)} {:trigger EventsAt(part, ms)} ::
      Others(EventsAt(part', ms), e) == Others(EventsAt(part, ms), e)
  }

  lemma AddKeepsOthers(part: map<int, seq<nat>>, ms: int, e: nat)
    ensures QueuesKeep(part, PartAdd(part, ms, e), e)
  {
    OthersAppend(EventsAt(part, ms), e);
  }

  lemma DelKeepsOthers(part: map<int, seq<nat>>, ms: int, e: nat)
    requires ms in part && e in part[ms]
    ensures QueuesKeep(part, PartDel(part, ms, e), e)
  {
    OthersDrop(part[ms], e);
    if |part[ms]| == 1 {
      assert part[ms] == [e] && [e][1..] == [];
    }
  }

  lemma ResetKeepsOthers(part: map<int, seq<nat>>, ms: int, e: nat)
    requires ms in part && e in part[ms]
    ensures QueuesKeep(part, PartReset(part, ms, e), e)
  {
    OthersDrop(part[ms], e);
    OthersAppend(Drop(part[ms], e), e);
  }

  // ---------------------------------------------------------------- armed and not

  ghost predicate InNoQueue(s: State, e: nat) {
    forall ms {:trigger s.v.q.part[ms]} :: ms in s.v.q.part ==> e !in s.v.q.part[ms]
  }

  /** The event is the last of those with timeout `ms`, in no other queue, and due then. */
  ghost predicate Armed(s: State, e: nat, ms: int, at: int) {
    && ms in s.v.q.part && s.v.q.part[ms] != [] && s.v.q.part[ms][|s.v.q.part[ms]| - 1] == e
    && (forall m {:trigger s.v.q.part[m]} :: m in s.v.q.part && m != ms ==> e !in s.v.q.part[m])
    && DueOf(s, e) == at
  }

  /** All other events keep their queues, their order and their times. */
  ghost predicate RestKeeps(s: State, s': State, e: nat) {
    && QueuesKeep(s.v.q.part, s'.v.q.part, e)
    && |s'.mem.due| >= |s.mem.due|
    && forall x: nat {:trigger DueOf(s', x)} :: x < |s.mem.due| && x != e ==> DueOf(s', x) == DueOf(s, x)
  }

  lemma RestTwice(s: State, s1: State, s2: State, e: nat)
    requires RestKeeps(s, s1, e) && RestKeeps(s1, s2, e)
    ensures RestKeeps(s, s2, e)
  {
    forall ms
      ensures Others(EventsAt(s2.v.q.part, ms), e) == Others(EventsAt(s.v.q.part, ms), e)
    {
      assert Others(EventsAt(s1.v.q.part, ms), e) == Others(EventsAt(s.v.q.part, ms), e);
    }
    forall x: nat | x < |s.mem.due| && x != e
      ensures DueOf(s2, x) == DueOf(s, x)
    {
      assert DueOf(s1, x) == DueOf(s, x);
    }
  }

  /** timeout_del: the event is in no queue. */
  lemma DelTimeoutDisarms(s: State, e: nat)
    requires Whole(s) && IsEvent(s, e)
    ensures InNoQueue(DelTimeout(s, e), e) && RestKeeps(s, DelTimeout(s, e), e)
  {
    var s1 := DelTimeout(s, e);
    NotQueued(s1, e);
    Shape(s);
    if s.mem.w4[e] != NULL {
      DelTally(s, e);
      DelKeepsOthers(s.v.q.part, TimeoutOf(s.mem, e), e);
    }
  }

  /** timeout_add: it is the last of its queue and due a full timeout from now. */
  lemma AddTimeoutArms(s: State, e: nat, ms: int)
    requires Whole(s) && IsEvent(s, e) && s.mem.Sized(|s.v.role|) && s.mem.w4[e] == NULL
    requires e < |s.attached| && s.attached[e] && AddTimeout(s, e, ms).1
    ensures Armed(AddTimeout(s, e, ms).0, e, ms, s.now + ms) && RestKeeps(s, AddTimeout(s, e, ms).0, e)
  {
    NotQueued(s, e);
    AddTally(s, e, ms);
    AddKeepsOthers(s.v.q.part, ms, e);
  }

  /** timeout_reset: the same, in the queue it is in. */
  lemma ResetArms(s: State, e: nat)
    requires Whole(s) && IsEvent(s, e) && s.mem.Sized(|s.v.role|) && s.mem.w4[e] != NULL
    ensures var ms := TimeoutOf(s.mem, e);
            Armed(ResetTimeout(s, e), e, ms, s.now + ms) && RestKeeps(s, ResetTimeout(s, e), e)
  {
    var ms, k := Queued(s, e);
    ResetTally(s, e);
    ResetKeepsOthers(s.v.q.part, ms, e);
  }

  /** The event has its queue to itself. */
  ghost predicate HasOwnQueue(s: State, e: nat) {
    exists m {:trigger s.v.q.part[m]} :: m in s.v.q.part && s.v.q.part[m] == [e]
  }

  /** What evq_set_timeout leaves behind. */
  ghost predicate IsSet(s: State, r: State, ok: bool, e: nat, ms: int) {
    RestKeeps(s, r, e) && if ok && ms != TIMEOUT_INFINITE then Armed(r, e, ms, s.now + ms) else InNoQueue(r, e)
  }

  /** No queue is one of events that wait for ever. */
  ghost predicate AllFinite(s: State) { TIMEOUT_INFINITE !in s.v.q.part }

  /**
   evq_set_timeout: with a timeout the event is the last of its queue and due a full timeout from now, with an
   infinite one it is in no queue.  It fails if and only if a queue is needed and no slot is free for it, and
   the event, in no queue then, does not leave one free.
   */
  lemma SetTimeoutArms(s: State, e: nat, ms: int)
    requires Whole(s) && AllFinite(s) && IsEvent(s, e) && e < |s.attached| && s.attached[e]
    ensures IsSet(s, SetTimeout(s, e, ms).0, SetTimeout(s, e, ms).1, e, ms) && AllFinite(SetTimeout(s, e, ms).0)
    ensures SetTimeout(s, e, ms).1 <==>
              ms == TIMEOUT_INFINITE || ms in s.v.q.part || s.v.free != [] || HasOwnQueue(s, e)
  {
    Shape(s);
    if s.mem.w4[e] != NULL && TimeoutOf(s.mem, e) == ms {
      var m, k := Queued(s, e);
      ResetArms(s, e);
    } else {
      SetAnewArms(s, e, ms);
    }
  }

  lemma SetAnewArms(s: State, e: nat, ms: int)
    requires Whole(s) && AllFinite(s) && IsEvent(s, e) && e < |s.attached| && s.attached[e]
    requires s.mem.Sized(|s.v.role|) && (s.mem.w4[e] != NULL ==> TimeoutOf(s.mem, e) != ms)
    ensures IsSet(s, SetTimeout(s, e, ms).0, SetTimeout(s, e, ms).1, e, ms) && AllFinite(SetTimeout(s, e, ms).0)
    ensures SetTimeout(s, e, ms).1 <==>
              ms == TIMEOUT_INFINITE || ms in s.v.q.part || s.v.free != [] || HasOwnQueue(s, e)
  {
    var s1 := DelTimeout(s, e);
    DelTimeoutDisarms(s, e);
    LeftByDel(s, e, ms);
    if ms != TIMEOUT_INFINITE && (ms in s1.v.q.part || s1.v.free != []) {
      Shape(s1);
      AddTimeoutArms(s1, e, ms);
      RestTwice(s, s1, AddTimeout(s1, e, ms).0, e);
    }
  }

  /** Which slots and queues there are once the event has left its own. */
  lemma LeftByDel(s: State, e: nat, ms: int)
    requires Whole(s) && IsEvent(s, e) && s.mem.Sized(|s.v.role|)
    requires s.mem.w4[e] != NULL ==> TimeoutOf(s.mem, e) != ms
    ensures ms in DelTimeout(s, e).v.q.part <==> ms in s.v.q.part
    ensures DelTimeout(s, e).v.free != [] <==> s.v.free != [] || HasOwnQueue(s, e)
  {
    if s.mem.w4[e] == NULL {
      NotQueued(s, e);
    } else {
      var m, k := Queued(s, e);
      if s.mem.w2[e] == NULL && s.mem.w3[e] == NULL {
        DropQueueKeeps(s, e);
        assert HasOwnQueue(s, e);
      } else {
        LeaveQueueKeeps(s, e);
      }
    }
  }

  // ---------------------------------------------------------------- evq_del, levq_del

  /** All other slots keep their flags and their events belong to the queue as before. */
  ghost predicate BitsStay(s: State, s': State, e: nat) {
    && |s'.flags| >= |s.flags| && |s'.attached| >= |s.attached|
    && forall x: nat {:trigger BitsOf(s', x)} :: x < |s.flags| && x != e ==> BitsOf(s', x) == BitsOf(s, x)
  }

  /** evq_del: the event is in no queue and belongs to the event queue no more. */
  lemma EvqDelDisarms(s: State, e: nat)
    requires Whole(s) && IsEvent(s, e) && e < |s.attached| && s.attached[e]
    ensures var r := EvqDel(s, e);
            && InNoQueue(r, e) && RestKeeps(s, r, e) && BitsStay(s, r, e) && r.v.alive == s.v.alive - {e}
            && (AllFinite(s) ==> AllFinite(r))
  {
    Shape(s);
    DelTimeoutDisarms(s, e);
  }

  /** levq_del does that too, and marks the event. */
  lemma DeleteDisarms(s: State, e: nat)
    requires Whole(s) && IsEvent(s, e)
    ensures var r := Delete(s, e);
            && InNoQueue(r, e) && RestKeeps(s, r, e) && BitsStay(s, r, e) && r.v.alive == s.v.alive - {e}
            && e < |s.flags| && BitsOf(r, e) == (s.flags[e].(deleted := true), false)
            && (AllFinite(s) ==> AllFinite(r))
  {
    Shape(s);
    assert Holds(Slots, s);
    assert SlotOk(e, s.v, s.mem.w4, s.flags, s.attached, s.evId);
    var s1 := if s.attached[e] then EvqDel(s, e) else s;
    if s.attached[e] {
      EvqDelDisarms(s, e);
    } else {
      NotQueued(s, e);
    }
    Shape(s1);
    var s2 := if s.flags[e].active then s1 else Release(s1, e);
    assert Delete(s, e) == MarkDeleted(s2, e);
    MarkedLast(s, s1, MarkDeleted(s2, e), e);
  }

  /** A slot is released or not, and marked. */
  lemma MarkedLast(s: State, s1: State, r: State, e: nat)
    requires InNoQueue(s1, e) && RestKeeps(s, s1, e) && BitsStay(s, s1, e)
    requires r.v.q == s1.v.q && r.mem.due == s1.mem.due && r.attached == s1.attached
    requires e < |s1.flags| && r.flags == s1.flags[e := s1.flags[e].(deleted := true)]
    ensures InNoQueue(r, e) && RestKeeps(s, r, e) && BitsStay(s, r, e)
  {
    forall x: nat | x < |s.flags| && x != e
      ensures BitsOf(r, x) == BitsOf(s, x)
    {
      assert BitsOf(s1, x) == BitsOf(s, x);
    }
    forall x: nat | x < |s.mem.due| && x != e
      ensures DueOf(r, x) == DueOf(s, x)
    {
      assert DueOf(s1, x) == DueOf(s, x);
    }
  }

  // ---------------------------------------------------------------- becoming ready, being handled

  /** What evq_process_active does to the timeout of an event that was not ready yet. */
  ghost predicate Reacts(s: State, r: State, e: nat, fl: Flags)
    requires e < |s.mem.w4|
  {
    if fl.oneshot then InNoQueue(r, e) && r.v.alive == s.v.alive - {e}
    else
      && r.v.alive == s.v.alive
      && if s.mem.w4[e] == NULL || fl.manual then r.v.q == s.v.q && r.mem.due == s.mem.due
         else Armed(r, e, TimeoutOf(s.mem, e), s.now + TimeoutOf(s.mem, e))
  }

  /**
   evq_process_active: the event is marked as read and ready.  If it was not ready yet, it joins the ready list;
   a one-shot event leaves its queue and the event queue, another one is due a full timeout from now unless
   its timeout is reset by hand.
   */
  lemma ActivateMakesReady(s: State, e: nat)
    requires Whole(s) && IsEvent(s, e) && e < |s.attached| && s.attached[e]
    ensures e < |s.flags| && e < |s.mem.w4| && (e in s.v.ready <==> s.flags[e].active)
    ensures var r, fl := Activate(s, e), s.flags[e];
            && BitsOf(r, e) == (fl.(readRes := true, active := true), fl.active || !fl.oneshot)
            && RestKeeps(s, r, e) && BitsStay(s, r, e)
            && (if fl.active then r.v == s.v && r.mem == s.mem else r.v.ready == [e] + s.v.ready && Reacts(s, r, e, fl))
            && (AllFinite(s) ==> AllFinite(r))
  {
    Shape(s);
    assert Holds(Slots, s);
    assert SlotOk(e, s.v, s.mem.w4, s.flags, s.attached, s.evId);
    if !s.flags[e].active { FirstActivation(s, e); }
  }

  lemma FirstActivation(s: State, e: nat)
    requires Whole(s) && IsEvent(s, e) && e < |s.attached| && s.attached[e] && e < |s.flags| && !s.flags[e].active
    requires e < |s.mem.w4|
    ensures var r, fl := Activate(s, e), s.flags[e];
            && BitsOf(r, e) == (fl.(readRes := true, active := true), !fl.oneshot)
            && RestKeeps(s, r, e) && BitsStay(s, r, e) && r.v.ready == [e] + s.v.ready && Reacts(s, r, e, fl)
            && (AllFinite(s) ==> AllFinite(r))
  {
    Shape(s);
    ActivateFirst(s, e);
    var fl := s.flags[e].(readRes := true);
    var s1 := Enqueue(s, e, fl.(active := true));
    ReactedArms(s1, e, fl);
    Reaction(s, s1, Reacted(s1, e, fl), e, fl);
  }

  lemma ReactedArms(s1: State, e: nat, fl: Flags)
    requires Whole(s1) && IsEvent(s1, e) && e < |s1.attached| && s1.attached[e] && s1.mem.Sized(|s1.v.role|)
    ensures var r := Reacted(s1, e, fl);
            && RestKeeps(s1, r, e) && BitsStay(s1, r, e) && Reacts(s1, r, e, fl) && r.v.ready == s1.v.ready
            && BitsOf(r, e) == (BitsOf(s1, e).0, !fl.oneshot) && (AllFinite(s1) ==> AllFinite(r))
  {
    Shape(s1);
    if fl.oneshot {
      EvqDelDisarms(s1, e);
    } else if s1.mem.w4[e] != NULL && !fl.manual {
      ResetArms(s1, e);
    }
  }

  /** The queues are looked at before and after, the flags change in between. */
  lemma Reaction(s: State, s1: State, r: State, e: nat, fl: Flags)
    requires e < |s.mem.w4| && s1.mem.w4 == s.mem.w4 && s1.mem.due == s.mem.due && s1.now == s.now
    requires s1.v.q == s.v.q && s1.v.alive == s.v.alive && e < |s.flags| && s1.flags == s.flags[e := fl.(active := true)]
    requires s1.attached == s.attached && RestKeeps(s1, r, e) && BitsStay(s1, r, e) && Reacts(s1, r, e, fl)
    ensures RestKeeps(s, r, e) && BitsStay(s, r, e) && Reacts(s, r, e, fl)
  {
    forall x: nat | x < |s.flags| && x != e
      ensures BitsOf(r, x) == BitsOf(s, x)
    {
      assert BitsOf(r, x) == BitsOf(s1, x);
    }
    forall x: nat | x < |s.mem.due| && x != e
      ensures DueOf(r, x) == DueOf(s, x)
    {
      assert DueOf(r, x) == DueOf(s1, x);
    }
  }

  /** sys_evq_sched_del: an event that is not ready becomes a ready one-shot, and its timeout stays. */
  lemma CancelMakesReady(s: State, e: nat)
    requires Whole(s) && IsEvent(s, e)
    ensures e < |s.flags| && e < |s.attached|
    ensures var r, fl := Cancel(s, e), s.flags[e];
            && r.v.q == s.v.q && r.mem.due == s.mem.due && BitsStay(s, r, e) && r.v.alive == s.v.alive
            && if s.attached[e] && !fl.active
               then BitsOf(r, e) == (fl.(active := true, oneshot := true), true) && r.v.ready == [e] + s.v.ready
               else r == s
  {
    Shape(s);
  }

  /** An event taken off the ready list that is deleted or a one-shot, but for its slot. */
  ghost predicate Gone(s: State, r: State, e: nat) {
    && InNoQueue(r, e) && RestKeeps(s, r, e) && BitsStay(s, r, e) && r.v.alive == s.v.alive - {e}
    && BitsOf(r, e).0 == BitsOf(s, e).0.(active := false, readRes := false, timeoutRes := false)
  }

  /** One taken off the ready list that stays as it is. */
  ghost predicate Remains(s: State, r: State, e: nat) {
    && r.v.q == s.v.q && r.mem.due == s.mem.due && r.v.alive == s.v.alive && BitsStay(s, r, e)
    && BitsOf(r, e) == (BitsOf(s, e).0.(active := false, readRes := false, timeoutRes := false), true)
  }

  /** levq_del_event comes last. */
  lemma ReleasedLast(s: State, s2: State, e: nat)
    requires Gone(s, s2, e) && s2.mem.Sized(|s2.v.role|) && e < |s2.v.role|
    ensures Gone(s, Release(s2, e), e) && Release(s2, e).v.free != [] && Release(s2, e).v.free[0] == e
  {
    var r := Release(s2, e);
    forall x: nat | x < |s.flags| && x != e
      ensures BitsOf(r, x) == BitsOf(s, x)
    {
      assert BitsOf(s2, x) == BitsOf(s, x);
    }
    forall x: nat | x < |s.mem.due| && x != e
      ensures DueOf(r, x) == DueOf(s, x)
    {
      assert DueOf(s2, x) == DueOf(s, x);
    }
  }

  lemma DequeueUnmarks(s: State)
    requires Whole(s) && s.v.ready != [] && s.mem.Sized(|s.v.role|)
    requires s.v.ready[0] < |s.v.role| == |s.flags| == |s.attached|
    ensures var e, s1 := s.v.ready[0], Dequeue(s);
            if s.attached[e] then Remains(s, s1, e) else Gone(s, s1, e)
  {
    var e := s.v.ready[0];
    assert e in s.v.ready;
    assert Holds(Slots, s);
    assert SlotOk(e, s.v, s.mem.w4, s.flags, s.attached, s.evId);
    if !s.attached[e] { NotQueued(s, e); }
  }

  lemma OneshotGone(s: State, s1: State, e: nat)
    requires Whole(s1) && IsEvent(s1, e) && e < |s1.attached| && s1.attached[e] && Remains(s, s1, e)
    ensures Gone(s, EvqDel(s1, e), e) && (AllFinite(s) ==> AllFinite(EvqDel(s1, e)))
  {
    EvqDelDisarms(s1, e);
    var s2 := EvqDel(s1, e);
    Shape(s1);
    forall x: nat | x < |s.flags| && x != e
      ensures BitsOf(s2, x) == BitsOf(s, x)
    {
      assert BitsOf(s2, x) == BitsOf(s1, x);
    }
    forall x: nat | x < |s.mem.due| && x != e
      ensures DueOf(s2, x) == DueOf(s, x)
    {
      assert DueOf(s2, x) == DueOf(s1, x);
    }
  }

  /**
   One round of the ready loop: the result flags of the first ready event are cleared.  If it is deleted or a
   one-shot, it is in no queue and its slot is free; else it stays as it is.
   */
  lemma DrainHandles(s: State)
    requires Whole(s) && s.v.ready != []
    ensures s.v.ready[0] < |s.flags| && s.v.ready[0] < |s.attached| && Drain(s).v.ready == s.v.ready[1..]
    ensures var r, e := Drain(s), s.v.ready[0];
            if s.attached[e] && !s.flags[e].oneshot then Remains(s, r, e)
            else Gone(s, r, e) && r.v.free != [] && r.v.free[0] == e
    ensures AllFinite(s) ==> AllFinite(Drain(s))
  {
    Shape(s);
    DequeueKeeps(s);
    DequeuedHead(s);
    DequeueUnmarks(s);
    var e, s1 := s.v.ready[0], Dequeue(s);
    Shape(s1);
    if !s.attached[e] {
      ReleasedLast(s, s1, e);
    } else if s.flags[e].oneshot {
      OneshotGone(s, s1, e);
      Shape(EvqDel(s1, e));
      ReleasedLast(s, EvqDel(s1, e), e);
    }
  }
}
