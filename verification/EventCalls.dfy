/**
 The operations of the event queue put together from their steps: timeouts, deletion, becoming ready and
 being handled, levq_add, and the processing of synchronous operations.
 */
module EventCalls {
  import opened Lists
  import opened TimeoutLists
  import opened TimeoutState
  import opened EventSlots
  import opened EventState
  import opened EventProcess
  import opened EventExpiry
  import opened EventIds
  import opened EventOps

  /** Events stay events, and lists other than the free list stay as they are. */
  ghost predicate TimeoutsOnly(s: State, r: State) {
    && r.flags == s.flags && r.attached == s.attached && r.evId == s.evId && r.now == s.now && r.useMap == s.useMap
    && r.v.ready == s.v.ready && r.v.sync == s.v.sync && r.v.alive == s.v.alive && |r.v.role| == |s.v.role|
    && (forall x :: 0 <= x < |s.v.role| ==>
          (r.v.role[x] == Event <==> s.v.role[x] == Event) && (r.v.role[x] == Taken <==> s.v.role[x] == Taken))
    && r.nevents == s.nevents && r.nbufs == s.nbufs && r.bufIndex == s.bufIndex && r.bufNevents == s.bufNevents
  }

  lemma Shape(s: State)
    requires Inv(s)
    ensures s.mem.Sized(|s.v.role|) && |s.flags| == |s.attached| == |s.evId| == |s.v.role|
  {
    assert Holds(Sizes, s);
  }

  // ---------------------------------------------------------------- evq_set_timeout

  /** The events by timeout without `e`, which is among those of `ms`. */
  function PartLeft(part: map<int, seq<nat>>, ms: int, e: nat): map<int, seq<nat>> {
    if ms in part && e in part[ms] then PartDel(part, ms, e) else part
  }

  ghost function DelTimeout(s: State, e: nat): (r: State)
    requires Whole(s) && IsEvent(s, e)
    ensures Whole(r) && TimeoutsOnly(s, r) && IsEvent(r, e)
    ensures r.mem.Sized(|r.v.role|) && r.mem.w4[e] == NULL && |r.v.free| >= |s.v.free|
    ensures s.mem.Sized(|s.v.role|)
    ensures r.v.q.part == if s.mem.w4[e] == NULL then s.v.q.part else PartLeft(s.v.q.part, TimeoutOf(s.mem, e), e)
  {
    Shape(s);
    if s.mem.w4[e] == NULL then s
    else if s.mem.w2[e] == NULL && s.mem.w3[e] == NULL then
      DropQueueKeeps(s, e);
      QueueSlotIsNoEvent(s, e);
      Shape(DropQueue(s, e));
      DropQueue(s, e)
    else
      LeaveQueueKeeps(s, e);
      Shape(LeaveQueue(s, e));
      LeaveQueue(s, e)
  }

  lemma QueueSlotIsNoEvent(s: State, e: nat)
    requires Inv(s) && IsEvent(s, e) && s.mem.Sized(|s.v.role|) && s.mem.w4[e] != NULL
    ensures 0 <= s.mem.w4[e] < |s.v.role| && s.v.role[s.mem.w4[e]] == Queue && s.mem.w4[e] != e
  {
    var ms, k := Queued(s, e);
    assert Holds(QueueList, s) && Holds(Slots, s);
    assert SlotOk(s.mem.w4[e], s.v, s.mem.w4, s.flags, s.attached, s.evId);
  }

  ghost function AddTimeout(s: State, e: nat, ms: int): (r: (State, bool))
    requires Whole(s) && IsEvent(s, e) && s.mem.Sized(|s.v.role|) && s.mem.w4[e] == NULL
    requires e < |s.attached| && s.attached[e]
    ensures Whole(r.0) && TimeoutsOnly(s, r.0) && IsEvent(r.0, e)
    ensures r.1 <==> ms in s.v.q.part || s.v.free != []
    ensures r.0.v.q.part == if r.1 then PartAdd(s.v.q.part, ms, e) else s.v.q.part
  {
    Shape(s);
    if ms in s.v.q.part then
      JoinQueueKeeps(s, e, ms);
      (JoinQueue(s, e, ms), true)
    else if s.v.free != [] then
      OpenQueueKeeps(s, e, ms);
      HeadIsFree(s);
      FreeIsNoEvent(s);
      (OpenQueue(s, e, ms), true)
    else
      (s, false)
  }

  lemma FreeIsNoEvent(s: State)
    requires Inv(s) && s.v.free != [] && s.v.free[0] < |s.v.role|
    ensures s.v.role[s.v.free[0]] == Free
  {
    assert Holds(Slots, s);
    assert s.v.free[0] in s.v.free;
    assert SlotOk(s.v.free[0], s.v, s.mem.w4, s.flags, s.attached, s.evId);
  }

  ghost function ResetTimeout(s: State, e: nat): (r: State)
    requires Whole(s) && IsEvent(s, e) && s.mem.Sized(|s.v.role|) && s.mem.w4[e] != NULL
    ensures Whole(r) && TimeoutsOnly(s, r) && IsEvent(r, e)
    ensures TimeoutOf(s.mem, e) in s.v.q.part && e in s.v.q.part[TimeoutOf(s.mem, e)]
    ensures r.v.q.part == PartReset(s.v.q.part, TimeoutOf(s.mem, e), e) && r.v.free == s.v.free
  {
    ResetKeeps(s, e);
    Reset(s, e)
  }

  /** evq_set_timeout: false when no slot is left for a new queue. */
  ghost function SetTimeout(s: State, e: nat, ms: int): (r: (State, bool))
    requires Whole(s) && IsEvent(s, e) && e < |s.attached| && s.attached[e]
    ensures Whole(r.0) && TimeoutsOnly(s, r.0) && IsEvent(r.0, e)
    ensures s.v.free != [] ==> r.1
  {
    Shape(s);
    if s.mem.w4[e] != NULL && TimeoutOf(s.mem, e) == ms then (ResetTimeout(s, e), true)
    else
      var s1 := DelTimeout(s, e);
      if ms == TIMEOUT_INFINITE then (s1, true) else AddTimeout(s1, e, ms)
  }

  // ---------------------------------------------------------------- evq_del, levq_del

  /** evq_del. */
  ghost function EvqDel(s: State, e: nat): (r: State)
    requires Whole(s) && IsEvent(s, e) && e < |s.attached| && s.attached[e]
    ensures Whole(r) && r.v.ready == s.v.ready && r.flags == s.flags && r.now == s.now && r.useMap == s.useMap
    ensures e < |r.v.role| == |s.v.role| && e < |s.flags|
    ensures r.v.role[e] == if s.flags[e].active then Event else Taken
    ensures e < |r.attached| && !r.attached[e] && e !in r.v.alive
  {
    var s1 := DelTimeout(s, e);
    Shape(s1);
    DetachKeeps(s1, e);
    Detach(s1, e)
  }

  /** levq_del; a released handle must not be deleted again. */
  ghost function Delete(s: State, e: nat): (r: State)
    requires Whole(s) && IsEvent(s, e)
    ensures Whole(r) && r.v.ready == s.v.ready && e !in r.v.alive
    ensures |r.v.role| == |s.v.role| && e < |s.flags|
    ensures r.v.role[e] == if s.flags[e].active then Event else Free
  {
    Shape(s);
    assert Holds(Slots, s);
    assert SlotOk(e, s.v, s.mem.w4, s.flags, s.attached, s.evId);
    var s1 := if s.attached[e] then EvqDel(s, e) else s;
    Shape(s1);
    if s.flags[e].active then
      MarkDeletedKeeps(s1, e);
      MarkDeleted(s1, e)
    else
      ReleaseKeeps(s1, e);
      var s2 := Release(s1, e);
      Shape(s2);
      MarkDeletedKeeps(s2, e);
      MarkDeleted(s2, e)
  }

  ghost function MarkDeleted(s: State, e: nat): State
    requires e < |s.flags|
  {
    s.(flags := s.flags[e := s.flags[e].(deleted := true)])
  }

  /** The mark does no harm, even to a slot just released. */
  lemma MarkDeletedKeeps(s: State, e: nat)
    requires Whole(s) && e < |s.flags| == |s.attached| == |s.v.role|
    requires s.v.role[e] == Event ==> !s.attached[e]
    ensures Whole(MarkDeleted(s, e))
  {
    Facts(s);
    SlotsMarkDeleted(s.v, s.mem.w4, s.flags, s.attached, s.evId, e);
    Establish(MarkDeleted(s, e));
  }

  lemma SlotsMarkDeleted(v: View, w4: seq<int>, flags: seq<Flags>, attached: seq<bool>, evId: seq<int>, e: nat)
    requires SlotsOk(v, w4, flags, attached, evId) && e < |flags| && (v.role[e] == Event ==> !attached[e])
    ensures SlotsOk(v, w4, flags[e := flags[e].(deleted := true)], attached, evId)
  {
    var fl := flags[e := flags[e].(deleted := true)];
    forall x: nat | x < |v.role|
      ensures SlotOk(x, v, w4, fl, attached, evId)
    {
      assert SlotOk(x, v, w4, flags, attached, evId);
    }
  }

  // ---------------------------------------------------------------- becoming ready, being handled

  /** evq_process_active, which the scan of evq_wait repeats: an event of the queue is triggered. */
  ghost function Activate(s: State, e: nat): (r: State)
    requires Whole(s) && IsEvent(s, e) && e < |s.attached| && s.attached[e]
    ensures Whole(r) && |r.v.role| == |s.v.role|
    ensures r.v.ready == if e in s.v.ready then s.v.ready else [e] + s.v.ready
  {
    Shape(s);
    assert Holds(Slots, s);
    assert SlotOk(e, s.v, s.mem.w4, s.flags, s.attached, s.evId);
    var fl := s.flags[e].(readRes := true);
    if fl.active then
      MarkReadKeeps(s, e, fl);
      s.(flags := s.flags[e := fl])
    else
      EnqueueKeeps(s, e, fl.(active := true));
      var s1 := Enqueue(s, e, fl.(active := true));
      Shape(s1);
      if fl.oneshot then EvqDel(s1, e)
      else if s1.mem.w4[e] != NULL && !fl.manual then ResetTimeout(s1, e)
      else s1
  }

  lemma ActivateFirst(s: State, e: nat)
    requires Whole(s) && IsEvent(s, e) && e < |s.flags| == |s.attached| && s.attached[e] && !s.flags[e].active
    ensures s.mem.Sized(|s.v.role|) && e < |s.v.role| == |s.flags|
    ensures var fl := s.flags[e].(readRes := true);
            var s1 := Enqueue(s, e, fl.(active := true));
            && Whole(s1) && IsEvent(s1, e) && e < |s1.attached| && s1.attached[e] && s1.mem.Sized(|s1.v.role|)
            && Activate(s, e) == Reacted(s1, e, fl)
  {
    Shape(s);
    var fl := s.flags[e].(readRes := true);
    EnqueueKeeps(s, e, fl.(active := true));
    Shape(Enqueue(s, e, fl.(active := true)));
  }

  /** The timeout of an event that has become ready with the flags `fl`. */
  ghost function Reacted(s1: State, e: nat, fl: Flags): State
    requires Whole(s1) && IsEvent(s1, e) && e < |s1.attached| && s1.attached[e] && s1.mem.Sized(|s1.v.role|)
  {
    if fl.oneshot then EvqDel(s1, e)
    else if s1.mem.w4[e] != NULL && !fl.manual then ResetTimeout(s1, e)
    else s1
  }

  lemma MarkReadKeeps(s: State, e: nat, fl: Flags)
    requires Whole(s) && IsEvent(s, e) && e < |s.flags|
    requires fl == s.flags[e].(readRes := true) || fl == s.flags[e].(oneshot := true)
    ensures Whole(s.(flags := s.flags[e := fl]))
  {
    Facts(s);
    SlotsMarkRead(s.v, s.mem.w4, s.flags, s.attached, s.evId, e, fl);
    Establish(s.(flags := s.flags[e := fl]));
  }

  lemma SlotsMarkRead(v: View, w4: seq<int>, flags: seq<Flags>, attached: seq<bool>, evId: seq<int>, e: nat, fl: Flags)
    requires SlotsOk(v, w4, flags, attached, evId) && e < |flags|
    requires fl.active == flags[e].active && fl.deleted == flags[e].deleted
    ensures SlotsOk(v, w4, flags[e := fl], attached, evId)
  {
    var fl' := flags[e := fl];
    forall x: nat | x < |v.role|
      ensures SlotOk(x, v, w4, fl', attached, evId)
    {
      assert SlotOk(x, v, w4, flags, attached, evId);
    }
  }

  /** One round of the loop of sys_evq_loop over the ready list, up to the callback. */
  ghost function Drain(s: State): (r: State)
    requires Whole(s) && s.v.ready != []
    ensures Whole(r) && r.v.ready == s.v.ready[1..] && |r.v.role| == |s.v.role|
    ensures s.v.ready[0] < |r.v.role|
    ensures r.v.role[s.v.ready[0]] == if s.v.ready[0] in r.v.alive then Event else Free
  {
    DequeueKeeps(s);
    var e := s.v.ready[0];
    var s1 := Dequeue(s);
    Shape(s);
    Shape(s1);
    DequeuedHead(s);
    if !s.attached[e] then
      ReleaseKeeps(s1, e);
      Release(s1, e)
    else if s.flags[e].oneshot then
      var s2 := EvqDel(s1, e);
      ReleaseKeeps(s2, e);
      Release(s2, e)
    else
      s1
  }

  lemma DequeuedHead(s: State)
    requires Whole(s) && s.v.ready != [] && s.mem.Sized(|s.v.role|)
    requires s.v.ready[0] < |s.v.role| == |s.flags| == |s.attached|
    ensures var e, r := s.v.ready[0], Dequeue(s);
            && (r.v.role[e] == if s.attached[e] then Event else Taken) && !r.flags[e].active
            && (e in r.v.alive <==> s.attached[e])
  {
    assert Holds(Slots, s);
    assert s.v.ready[0] in s.v.ready;
    assert SlotOk(s.v.ready[0], s.v, s.mem.w4, s.flags, s.attached, s.evId);
  }

  /** sys_evq_sched_del on an added event: it is made ready as a one-shot. */
  ghost function Cancel(s: State, e: nat): (r: State)
    requires Whole(s) && IsEvent(s, e)
    ensures Whole(r) && |r.v.role| == |s.v.role|
  {
    Shape(s);
    if !s.attached[e] || s.flags[e].active then s
    else
      EnqueueKeeps(s, e, s.flags[e].(active := true, oneshot := true));
      Enqueue(s, e, s.flags[e].(active := true, oneshot := true))
  }

  // ---------------------------------------------------------------- levq_add

  /** A slot is kept free for a timeout queue; None when there are too many events. */
  ghost function Reserve(s: State): (r: (State, bool))
    requires Whole(s)
    ensures Whole(r.0) && (r.1 ==> r.0.v.free != [])
    ensures |r.0.v.role| >= |s.v.role| && forall x :: 0 <= x < |s.v.role| ==> r.0.v.role[x] == s.v.role[x]
    ensures r.0.v.ready == s.v.ready && r.0.v.alive == s.v.alive && r.0.v.q == s.v.q && r.0.v.sync == s.v.sync
    ensures forall x :: 0 <= x < |s.v.role| && s.v.role[x] == Taken ==> SameSlot(s, r.0, x)
  {
    FreeEmptyIff(s);
    if s.evFree != NULL then (s, true)
    else if !CanAlloc(s) then (s, false)
    else
      AllocKeeps(s);
      var (s1, p) := Alloc(s);
      ReleaseKeeps(s1, p);
      (Release(s1, p), true)
  }

  ghost predicate SameSlot(s: State, r: State, x: nat) {
    (x < |s.mem.w4| ==> x < |r.mem.w4| && r.mem.w4[x] == s.mem.w4[x])
  }

  /**
   What may go wrong while levq_add holds the slot of the event: a directory watch is asked for and
   argument 2 is no string, or Lua runs out of memory.  Either way an error is raised.
   */
  datatype Upset = Smooth | BadPath | NoMemory

  /** A call of levq_add: `polled` says whether the kernel side of evq_add succeeds; timers have none. */
  datatype Request = Request(fl: Flags, ms: int, polled: bool, upset: Upset)

  predicate Proper(a: Request) { !a.fl.active && !a.fl.deleted }

  /** `TooMany` and `Raised` are errors raised, `Failed` is returned. */
  datatype AddResult = Added(ev: nat) | Failed | TooMany | Raised

  predicate Raises(r: AddResult) { r.TooMany? || r.Raised? }

  /** The end of levq_add once the slots are there. */
  ghost function Placed(s1: State, p: nat, fl: Flags, ms: int, polled: bool): (r: State)
    requires Whole(s1) && IsTaken(s1, p) && !fl.active && !fl.deleted
    requires s1.mem.Sized(|s1.v.role|) && s1.mem.w4[p] == NULL
    ensures Whole(r) && r.v.ready == s1.v.ready
    ensures fl.timer || polled ==> p in r.v.alive && IsEvent(r, p)
  {
    TakenIsLoose(s1, p);
    var s2 := Reserve(s1).0;
    Shape(s2);
    if fl.timer || polled then
      AttachKeeps(s2, p, fl);
      SetTimeout(Attach(s2, p, fl), p, ms).0
    else
      ReleaseKeeps(s2, p);
      Release(s2, p)
  }

  /** levq_add. */
  ghost function Add(s: State, a: Request): (r: (State, AddResult))
    requires Whole(s) && Proper(a)
    ensures Whole(r.0)
    ensures r.1.Added? ==> r.1.ev in r.0.v.alive && IsEvent(r.0, r.1.ev) && r.1.ev !in s.v.alive
    ensures r.1.Added? <==> (!Raises(r.1) && (a.fl.timer || a.polled))
    ensures r.0.v.ready == s.v.ready
  {
    if !CanAlloc(s) then (s, TooMany)
    else
      AllocKeeps(s);
      var (s1, p) := Alloc(s);
      TakenIsLoose(s1, p);
      if a.upset != Smooth then (s1, Raised)
      else if !Reserve(s1).1 then (Reserve(s1).0, TooMany)
      else (Placed(s1, p, a.fl, a.ms, a.polled), if a.fl.timer || a.polled then Added(p) else Failed)
  }

  /** levq_add as far as the flags given by the caller are those of a new event. */
  ghost function AddIf(s: State, a: Request): (r: (State, AddResult))
    requires Whole(s)
    ensures Whole(r.0) && r.0.v.ready == s.v.ready
  {
    if Proper(a) then Add(s, a) else (s, Failed)
  }

  // ---------------------------------------------------------------- taken slots

  ghost predicate KeepsTaken(s: State, r: State) {
    forall p: nat {:trigger IsTaken(r, p)} :: IsTaken(r, p) <==> IsTaken(s, p)
  }

  /** A slot taken and given back. */
  lemma TakenAndReleased(s: State, s1: State, p: nat)
    requires Whole(s) && CanAlloc(s) && s1 == Alloc(s).0 && p == Alloc(s).1
    ensures IsTaken(s1, p) && s1.mem.Sized(|s1.v.role|) && !IsTaken(s, p)
    ensures forall x: nat {:trigger IsTaken(s1, x)} :: IsTaken(s1, x) <==> IsTaken(s, x) || x == p
    ensures KeepsTaken(s, Release(s1, p))
  {
    AllocKeeps(s);
    AllocLength(s);
  }

  lemma AllocLength(s: State)
    requires Whole(s) && CanAlloc(s)
    ensures |Alloc(s).0.v.role| == if Alloc(s).1 < |s.v.role| then |s.v.role| else |s.v.role| + 1
    ensures Alloc(s).1 <= |s.v.role|
  {
    FreeEmptyIff(s);
  }

  lemma EvqDelTaken(s: State, e: nat)
    requires Whole(s) && IsEvent(s, e) && e < |s.attached| && s.attached[e]
    ensures e < |s.flags|
    ensures forall x: nat {:trigger IsTaken(EvqDel(s, e), x)} ::
              IsTaken(EvqDel(s, e), x) <==> IsTaken(s, x) || (x == e && !s.flags[e].active)
  {
    Shape(s);
    var s1 := DelTimeout(s, e);
  }

  lemma SetTaken(s: State, e: nat, ms: int)
    requires Whole(s) && IsEvent(s, e) && e < |s.attached| && s.attached[e]
    ensures KeepsTaken(s, SetTimeout(s, e, ms).0)
  {
  }

  lemma ReserveTaken(s: State)
    requires Whole(s)
    ensures KeepsTaken(s, Reserve(s).0)
    ensures Reserve(s).1 <==> CanAlloc(s)
  {
    if s.evFree == NULL && CanAlloc(s) {
      TakenAndReleased(s, Alloc(s).0, Alloc(s).1);
    }
  }

  lemma AttachTaken(s: State, p: nat, fl: Flags)
    requires p < |s.flags| == |s.attached| == |s.v.role| && IsTaken(s, p)
    ensures forall x: nat {:trigger IsTaken(Attach(s, p, fl), x)} ::
              IsTaken(Attach(s, p, fl), x) <==> IsTaken(s, x) && x != p
  {
  }

  lemma PlacedTaken(s1: State, p: nat, fl: Flags, ms: int, polled: bool, x: nat)
    requires Whole(s1) && IsTaken(s1, p) && !fl.active && !fl.deleted && KeepsTaken(s1, Reserve(s1).0)
    requires s1.mem.Sized(|s1.v.role|) && s1.mem.w4[p] == NULL
    ensures IsTaken(Placed(s1, p, fl, ms, polled), x) <==> IsTaken(s1, x) && x != p
  {
    var s2 := Reserve(s1).0;
    Shape(s2);
    assert IsTaken(s2, x) <==> IsTaken(s1, x);
    if fl.timer || polled {
      AttachKeeps(s2, p, fl);
      AttachTaken(s2, p, fl);
      SetTaken(Attach(s2, p, fl), p, ms);
      assert IsTaken(SetTimeout(Attach(s2, p, fl), p, ms).0, x) <==> IsTaken(Attach(s2, p, fl), x);
    }
  }

  /** levq_add that has taken slot `p` raises an error and forgets the slot. */
  ghost predicate AddShort(s: State, a: Request)
    requires Whole(s)
  {
    Proper(a) && CanAlloc(s) && (a.upset != Smooth || !CanAlloc(Alloc(s).0))
  }

  ghost predicate AddLeaks(s: State, a: Request, p: nat)
    requires Whole(s)
  {
    AddShort(s, a) && Alloc(s).1 == p
  }

  lemma AddTaken(s: State, a: Request, x: nat)
    requires Whole(s)
    ensures IsTaken(AddIf(s, a).0, x) <==> IsTaken(s, x) || AddLeaks(s, a, x)
    ensures Raises(AddIf(s, a).1) <==> Proper(a) && (!CanAlloc(s) || AddShort(s, a))
  {
    if Proper(a) && CanAlloc(s) {
      AllocKeeps(s);
      var (s1, p) := Alloc(s);
      TakenAndReleased(s, s1, p);
      ReserveTaken(s1);
      if a.upset == Smooth && CanAlloc(s1) {
        TakenIsLoose(s1, p);
        PlacedTaken(s1, p, a.fl, a.ms, a.polled, x);
      }
    }
  }

  /** The link of slot `x` is the same. */
  ghost predicate SameLink(s: State, r: State, x: nat) {
    x < |s.mem.w0| && x < |r.mem.w0| && r.mem.w0[x] == s.mem.w0[x]
  }

  lemma AllocLinks(s: State, x: nat)
    requires Whole(s) && CanAlloc(s) && IsTaken(s, x)
    ensures IsTaken(Alloc(s).0, x) && x != Alloc(s).1 && SameLink(s, Alloc(s).0, x)
  {
    Shape(s);
    FreeEmptyIff(s);
    AllocKeeps(s);
    if s.v.free != [] { FreeIsNoEvent(s); }
  }

  lemma ReserveLinks(s: State, x: nat)
    requires Whole(s) && IsTaken(s, x)
    ensures IsTaken(Reserve(s).0, x) && SameLink(s, Reserve(s).0, x)
  {
    Shape(s);
    FreeEmptyIff(s);
    if s.evFree == NULL && CanAlloc(s) {
      AllocLinks(s, x);
      AllocKeeps(s);
    }
  }

  lemma SetLinks(s: State, e: nat, ms: int, x: nat)
    requires Whole(s) && IsEvent(s, e) && e < |s.attached| && s.attached[e] && IsTaken(s, x)
    requires s.mem.Sized(|s.v.role|) && s.mem.w4[e] == NULL
    ensures SameLink(s, SetTimeout(s, e, ms).0, x)
  {
    if ms != TIMEOUT_INFINITE {
      if ms in s.v.q.part {
        JoinQueueKeeps(s, e, ms);
      } else if s.v.free != [] {
        OpenQueueKeeps(s, e, ms);
        OpenLinks(s, e, ms, x);
      }
    }
  }

  lemma OpenLinks(s: State, e: nat, ms: int, x: nat)
    requires Whole(s) && IsTaken(s, x) && s.mem.Sized(|s.v.role|) && e < |s.v.role| && Within(s.v.q.tqs, |s.mem.w4|)
    requires s.v.free != [] && s.v.free[0] < |s.v.role|
    ensures SameLink(s, OpenQueue(s, e, ms), x)
  {
    FreeIsNoEvent(s);
    TakenIsLoose(s, x);
    var n := At(s.v.q.tqs, Place(s, ms));
    if n >= 0 { assert n in s.v.q.tqs; }
  }

  /** levq_add leaves the links of taken slots alone. */
  lemma AddLinks(s: State, a: Request, x: nat)
    requires Whole(s) && IsTaken(s, x)
    ensures SameLink(s, AddIf(s, a).0, x)
  {
    Shape(s);
    if Proper(a) && CanAlloc(s) {
      AllocKeeps(s);
      AllocLinks(s, x);
      var (s1, p) := Alloc(s);
      TakenIsLoose(s1, p);
      ReserveLinks(s1, x);
      if a.upset == Smooth && Reserve(s1).1 {
        PlacedLinks(s1, p, a.fl, a.ms, a.polled, x);
      }
    }
  }

  lemma PlacedLinks(s1: State, p: nat, fl: Flags, ms: int, polled: bool, x: nat)
    requires Whole(s1) && IsTaken(s1, p) && IsTaken(s1, x) && x != p && !fl.active && !fl.deleted
    requires s1.mem.Sized(|s1.v.role|) && s1.mem.w4[p] == NULL
    requires IsTaken(Reserve(s1).0, x) && SameLink(s1, Reserve(s1).0, x)
    ensures SameLink(s1, Placed(s1, p, fl, ms, polled), x)
  {
    TakenIsLoose(s1, p);
    var s2 := Reserve(s1).0;
    Shape(s2);
    if fl.timer || polled {
      AttachKeeps(s2, p, fl);
      Shape(Attach(s2, p, fl));
      SetLinks(Attach(s2, p, fl), p, ms, x);
    }
  }

  // ---------------------------------------------------------------- levq_sync_process

  /**
   What becomes of a pending operation: its task has been terminated, it calls levq_add, or it raises an
   error before it comes to that, as for an unknown signal name.
   */
  datatype Called = Cancelled | Adds(a: Request) | Fails

  function FirstCall(calls: seq<Called>): Called { if calls == [] then Cancelled else calls[0] }

  function OtherCalls(calls: seq<Called>): seq<Called> { if calls == [] then [] else calls[1..] }

  ghost predicate Held(s: State, rest: seq<nat>) {
    Distinct(rest) && forall p :: p in rest ==> IsTaken(s, p)
  }

  /** The loop over the operations `rest`, which are on no list any more; an error raised by one ends it. */
  ghost function SyncFrom(s: State, rest: seq<nat>, calls: seq<Called>): (r: State)
    requires Whole(s) && Held(s, rest)
    ensures Whole(r) && r.v.ready == s.v.ready
    decreases |rest|
  {
    if rest == [] then s
    else
      ReleaseHeld(s, rest);
      var s1 := Release(s, rest[0]);
      match FirstCall(calls)
      case Cancelled => SyncFrom(s1, rest[1..], OtherCalls(calls))
      case Fails => s1
      case Adds(a) =>
        AddHeld(s1, rest[1..], a);
        if Raises(AddIf(s1, a).1) then AddIf(s1, a).0
        else SyncFrom(AddIf(s1, a).0, rest[1..], OtherCalls(calls))
  }

  lemma ReleaseHeld(s: State, rest: seq<nat>)
    requires Whole(s) && Held(s, rest) && rest != []
    ensures IsTaken(s, rest[0]) && s.mem.Sized(|s.v.role|)
    ensures Whole(Release(s, rest[0])) && Held(Release(s, rest[0]), rest[1..]) && Release(s, rest[0]).v.ready == s.v.ready
    ensures forall x: nat {:trigger IsTaken(Release(s, rest[0]), x)} ::
              IsTaken(Release(s, rest[0]), x) <==> IsTaken(s, x) && x != rest[0]
  {
    assert rest[0] in rest;
    ReleaseKeeps(s, rest[0]);
    forall p | p in rest[1..]
      ensures IsTaken(Release(s, rest[0]), p)
    {
      assert p in rest && p != rest[0];
    }
  }

  lemma AddHeld(s: State, rest: seq<nat>, a: Request)
    requires Whole(s) && Held(s, rest)
    ensures Held(AddIf(s, a).0, rest)
  {
    forall p | p in rest
      ensures IsTaken(AddIf(s, a).0, p)
    {
      AddTaken(s, a, p);
    }
  }

  /** sys_evq_loop and levq_sync_process: the whole list is detached, then worked off. */
  ghost function SyncProcess(s: State, calls: seq<Called>): (r: State)
    requires Whole(s)
    ensures Whole(r) && r.v.ready == s.v.ready
  {
    if s.v.sync == [] then s
    else
      DetachOpsKeeps(s);
      SyncFrom(DetachOps(s), s.v.sync, calls)
  }

  /** An error ends the loop. */
  ghost predicate SyncRaises(s: State, rest: seq<nat>, calls: seq<Called>)
    requires Whole(s) && Held(s, rest)
    decreases |rest|
  {
    rest != [] &&
    (ReleaseHeld(s, rest);
     var s1 := Release(s, rest[0]);
     match FirstCall(calls)
     case Cancelled => SyncRaises(s1, rest[1..], OtherCalls(calls))
     case Fails => true
     case Adds(a) =>
       AddHeld(s1, rest[1..], a);
       Raises(AddIf(s1, a).1) || SyncRaises(AddIf(s1, a).0, rest[1..], OtherCalls(calls)))
  }

  /** Slot `p` is on no list for good after the loop: a levq_add of it has leaked `p`, or an error has cut it short. */
  ghost predicate SyncLeaks(s: State, rest: seq<nat>, calls: seq<Called>, p: nat)
    requires Whole(s) && Held(s, rest)
    decreases |rest|
  {
    rest != [] &&
    (ReleaseHeld(s, rest);
     var s1 := Release(s, rest[0]);
     match FirstCall(calls)
     case Cancelled => SyncLeaks(s1, rest[1..], OtherCalls(calls), p)
     case Fails => p in rest[1..]
     case Adds(a) =>
       AddHeld(s1, rest[1..], a);
       AddLeaks(s1, a, p)
       || if Raises(AddIf(s1, a).1) then p in rest[1..] else SyncLeaks(AddIf(s1, a).0, rest[1..], OtherCalls(calls), p))
  }

  /** An error is raised while other operations are detached, or by a levq_add that leaks its own slot. */
  ghost predicate SyncShort(s: State, rest: seq<nat>, calls: seq<Called>)
    requires Whole(s) && Held(s, rest)
    decreases |rest|
  {
    rest != [] &&
    (ReleaseHeld(s, rest);
     var s1 := Release(s, rest[0]);
     match FirstCall(calls)
     case Cancelled => SyncShort(s1, rest[1..], OtherCalls(calls))
     case Fails => |rest| > 1
     case Adds(a) =>
       AddHeld(s1, rest[1..], a);
       AddShort(s1, a)
       || if Raises(AddIf(s1, a).1) then |rest| > 1 else SyncShort(AddIf(s1, a).0, rest[1..], OtherCalls(calls)))
  }

  /** Of the detached slots exactly those are given back that an error does not cut off. */
  lemma {:induction false} SyncTakenIff(s: State, rest: seq<nat>, calls: seq<Called>, p: nat)
    requires Whole(s) && Held(s, rest)
    ensures IsTaken(SyncFrom(s, rest, calls), p) <==> (IsTaken(s, p) && p !in rest) || SyncLeaks(s, rest, calls, p)
    decreases |rest|
  {
    if rest != [] {
      ReleaseHeld(s, rest);
      var s1 := Release(s, rest[0]);
      assert rest == [rest[0]] + rest[1..];
      match FirstCall(calls) {
        case Cancelled => SyncTakenIff(s1, rest[1..], OtherCalls(calls), p);
        case Fails =>
        case Adds(a) =>
          AddHeld(s1, rest[1..], a);
          AddTaken(s1, a, p);
          if !Raises(AddIf(s1, a).1) {
            SyncTakenIff(AddIf(s1, a).0, rest[1..], OtherCalls(calls), p);
          }
      }
    }
  }

  /** The loop leaks nothing if and only if it is not cut short. */
  lemma {:induction false} SyncShortLeaks(s: State, rest: seq<nat>, calls: seq<Called>) returns (p: nat)
    requires Whole(s) && Held(s, rest) && SyncShort(s, rest, calls)
    ensures SyncLeaks(s, rest, calls, p)
    decreases |rest|
  {
    ReleaseHeld(s, rest);
    var s1 := Release(s, rest[0]);
    match FirstCall(calls) {
      case Cancelled => p := SyncShortLeaks(s1, rest[1..], OtherCalls(calls));
      case Fails => p := rest[1];
      case Adds(a) =>
        AddHeld(s1, rest[1..], a);
        if AddShort(s1, a) {
          p := Alloc(s1).1;
        } else if Raises(AddIf(s1, a).1) {
          p := rest[1];
          assert p in rest[1..];
        } else {
          p := SyncShortLeaks(AddIf(s1, a).0, rest[1..], OtherCalls(calls));
        }
    }
  }

  lemma {:induction false} SyncLeaksShort(s: State, rest: seq<nat>, calls: seq<Called>, p: nat)
    requires Whole(s) && Held(s, rest) && SyncLeaks(s, rest, calls, p)
    ensures SyncShort(s, rest, calls)
    decreases |rest|
  {
    ReleaseHeld(s, rest);
    var s1 := Release(s, rest[0]);
    match FirstCall(calls) {
      case Cancelled => SyncLeaksShort(s1, rest[1..], OtherCalls(calls), p);
      case Fails =>
      case Adds(a) =>
        AddHeld(s1, rest[1..], a);
        if !AddShort(s1, a) && !Raises(AddIf(s1, a).1) {
          SyncLeaksShort(AddIf(s1, a).0, rest[1..], OtherCalls(calls), p);
        }
    }
  }
}
