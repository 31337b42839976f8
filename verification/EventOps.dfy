/**
 Slots changing roles: allocation, release, the ready list, deletion and the list of synchronous
 operations of src/sys_evq.c, each with the invariant it keeps.
 */
module EventOps {
  import opened Lists
  import opened TimeoutLists
  import opened TimeoutState
  import opened EventSlots
  import opened EventState
  import opened EventProcess
  import opened EventExpiry
  import opened EventIds

  /** The slots carved so far are those below the next fresh id. */
  ghost predicate Buffered(s: State) {
    && |s.v.role| == FreshId(s.bufIndex, s.bufNevents) && s.bufNevents < BufSize(s.bufIndex)
    && s.nbufs == (if s.bufNevents > 0 then s.bufIndex + 1 else s.bufIndex)
  }

  /** The invariant between the steps of the event queue. */
  ghost predicate Whole(s: State) {
    Inv(s) && Buffered(s) && s.nevents == |s.v.alive|
  }

  // ---------------------------------------------------------------- levq_new_event

  /** memset: NULL in every word. */
  function Cleared(m: Mem, p: nat): Mem
    requires m.Sized(|m.w0|) && p < |m.w0|
  {
    Mem(m.w0[p := NULL], m.w1[p := NULL], m.w2[p := NULL], m.w3[p := NULL], m.w4[p := NULL], m.due[p := 0])
  }

  function Widened(m: Mem): Mem {
    Mem(m.w0 + [NULL], m.w1 + [NULL], m.w2 + [NULL], m.w3 + [NULL], m.w4 + [NULL], m.due + [0])
  }

  ghost predicate FreeUsable(s: State) {
    s.mem.Sized(|s.v.role|) && |s.flags| == |s.attached| == |s.v.role| && s.v.free != [] && s.v.free[0] < |s.v.role|
  }

  /** The head of the free list, cleared. */
  ghost function Reuse(s: State): State
    requires FreeUsable(s)
  {
    var p := s.v.free[0];
    s.(mem := Cleared(s.mem, p), flags := s.flags[p := NO_FLAGS], attached := s.attached[p := false],
       evFree := s.mem.w0[p], v := s.v.(role := s.v.role[p := Taken], free := s.v.free[1..]))
  }

  ghost predicate CanCarve(s: State) {
    s.bufIndex < s.nbufs || s.bufIndex + BUF_IDX <= BUF_MAX
  }

  /** A slot that was never used before. */
  ghost function Carve(s: State): State {
    var next := if s.bufIndex < s.nbufs then NextSlot(s.bufIndex, s.bufNevents) else (s.bufIndex, 1);
    s.(mem := Widened(s.mem), flags := s.flags + [NO_FLAGS], attached := s.attached + [false],
       evId := s.evId + [FreshId(s.bufIndex, s.bufNevents)],
       nbufs := if s.bufIndex < s.nbufs then s.nbufs else s.nbufs + 1,
       bufIndex := next.0, bufNevents := next.1,
       v := s.v.(role := s.v.role + [Taken]))
  }

  ghost predicate CanAlloc(s: State) { s.evFree != NULL || CanCarve(s) }

  lemma FreeEmptyIff(s: State)
    requires Inv(s)
    ensures s.evFree == NULL <==> s.v.free == []
    ensures s.v.free != [] ==> FreeUsable(s) && s.evFree == s.v.free[0]
  {
    assert Holds(Chains, s) && Holds(Sizes, s);
  }

  /** levq_new_event, unless there are too many events. */
  ghost function Alloc(s: State): (r: (State, nat))
    requires Whole(s) && CanAlloc(s)
  {
    FreeEmptyIff(s);
    if s.evFree != NULL then (Reuse(s), s.v.free[0]) else (Carve(s), |s.v.role|)
  }

  lemma ReuseKeeps(s: State)
    requires Inv(s) && s.v.free != []
    ensures FreeUsable(s) && Inv(Reuse(s))
  {
    FreeEmptyIff(s);
    var s' := Reuse(s);
    ReuseSlots(s);
    ReuseQueues(s);
    ReuseChains(s);
    forall c
      ensures Holds(c, s')
    {
      match c {
        case Sizes => assert Holds(Sizes, s);
        case Chains =>
        case QueueList =>
        case Contents =>
        case Slots =>
        case Lookup =>
      }
    }
  }

  /** The head of the free list is in no queue and on no other list. */
  lemma HeadIsFree(s: State)
    requires Inv(s) && s.v.free != []
    ensures FreeUsable(s) && s.evFree == s.v.free[0] && Unqueued(s.v.q, s.v.free[0])
    ensures s.v.free[0] !in s.v.free[1..] && s.v.free[0] !in s.v.sync && s.v.free[0] !in s.v.ready
  {
    FreeEmptyIff(s);
    assert Holds(Chains, s) && Holds(Slots, s);
    var p := s.v.free[0];
    assert p in s.v.free;
    ChainPop(s.mem.w0, s.evFree, s.v.free);
    assert SlotOk(p, s.v, s.mem.w4, s.flags, s.attached, s.evId);
  }

  lemma ReuseChains(s: State)
    requires Inv(s) && FreeUsable(s)
    ensures Holds(Chains, Reuse(s))
  {
    HeadIsFree(s);
    assert Holds(Chains, s);
    ChainPop(s.mem.w0, s.evFree, s.v.free);
    ChainsKeep(s.mem.w0, s.mem.w0[s.evFree], s.syncOp, s.evReady, s.v.(free := s.v.free[1..]), s.v.free[0], NULL);
  }

  lemma ReuseQueues(s: State)
    requires Inv(s) && FreeUsable(s)
    ensures Holds(QueueList, Reuse(s)) && Holds(Contents, Reuse(s)) && Holds(Lookup, Reuse(s))
  {
    HeadIsFree(s);
    assert Holds(QueueList, s) && Holds(Contents, s) && Holds(Lookup, s);
    OtherSlot(s.mem, Cleared(s.mem, s.v.free[0]), s.tqHead, s.v.q, s.now, s.v.free[0]);
  }

  lemma ReuseSlots(s: State)
    requires Inv(s) && FreeUsable(s)
    ensures Holds(Slots, Reuse(s))
  {
    HeadIsFree(s);
    assert Holds(Slots, s);
    SlotsTaken(s.v, s.mem.w4, s.flags, s.attached, s.evId);
  }

  lemma SlotsTaken(v: View, w4: seq<int>, flags: seq<Flags>, attached: seq<bool>, evId: seq<int>)
    requires SlotsOk(v, w4, flags, attached, evId)
    requires v.free != [] && v.free[0] < |v.role| && v.free[0] !in v.free[1..]
    ensures SlotsOk(v.(role := v.role[v.free[0] := Taken], free := v.free[1..]),
                    w4[v.free[0] := NULL], flags[v.free[0] := NO_FLAGS], attached[v.free[0] := false], evId)
  {
    var p := v.free[0];
    var v', t4 := v.(role := v.role[p := Taken], free := v.free[1..]), w4[p := NULL];
    var fl, at := flags[p := NO_FLAGS], attached[p := false];
    assert v.free == [p] + v.free[1..];
    assert SlotOk(p, v, w4, flags, attached, evId);
    forall x: nat | x < |v.role|
      ensures SlotOk(x, v', t4, fl, at, evId)
    {
      assert SlotOk(x, v, w4, flags, attached, evId);
      if v.role[x] == Event && w4[x] != NULL {
        assert Tied(x, v.q, w4);
      }
    }
  }

  lemma CarveKeeps(s: State)
    requires Whole(s) && CanCarve(s)
    ensures Whole(Carve(s)) && |Carve(s).v.role| == |s.v.role| + 1
  {
    var s' := Carve(s);
    CarveBuffers(s);
    CarveQueues(s);
    CarveSlots(s);
    forall c
      ensures Holds(c, s')
    {
      match c {
        case Sizes => assert Holds(Sizes, s);
        case Chains =>
          assert Holds(Chains, s);
          ChainGrow(s.mem.w0, s.evFree, s.v.free, NULL);
          ChainGrow(s.mem.w0, s.syncOp, s.v.sync, NULL);
          ChainGrow(s.mem.w0, s.evReady, s.v.ready, NULL);
        case QueueList =>
        case Contents =>
        case Slots =>
        case Lookup => assert Holds(Lookup, s);
      }
    }
  }

  /** The fresh id is the number of slots carved before. */
  lemma CarveBuffers(s: State)
    requires Buffered(s) && CanCarve(s)
    ensures Buffered(Carve(s))
  {
    NextSlotFresh(s.bufIndex, s.bufNevents);
    NextSlotInside(s.bufIndex, s.bufNevents);
  }

  lemma CarveQueues(s: State)
    requires Inv(s)
    ensures Holds(QueueList, Carve(s)) && Holds(Contents, Carve(s))
  {
    assert Holds(QueueList, s) && Holds(Contents, s);
    GrownSlots(s.mem, Widened(s.mem), s.tqHead, s.v.q, s.now);
  }

  lemma CarveSlots(s: State)
    requires Inv(s) && |s.v.role| == FreshId(s.bufIndex, s.bufNevents)
    ensures Holds(Slots, Carve(s))
  {
    Facts(s);
    forall ms | ms in s.v.q.part
      ensures Within(s.v.q.part[ms], |s.v.role|)
    {
      assert OneOk(s.mem, s.v.q, ms, s.now);
    }
    SlotsCarved(s.v, s.mem.w4, s.flags, s.attached, s.evId);
  }

  lemma SlotsCarved(v: View, w4: seq<int>, flags: seq<Flags>, attached: seq<bool>, evId: seq<int>)
    requires SlotsOk(v, w4, flags, attached, evId)
    requires Within(v.free, |v.role|) && Within(v.sync, |v.role|) && Within(v.ready, |v.role|) && Within(v.q.tqs, |v.role|)
    requires forall ms :: ms in v.q.part ==> Within(v.q.part[ms], |v.role|)
    ensures SlotsOk(v.(role := v.role + [Taken]), w4 + [NULL], flags + [NO_FLAGS], attached + [false], evId + [|v.role|])
  {
    var v', t4, fl, at, id := v.(role := v.role + [Taken]), w4 + [NULL], flags + [NO_FLAGS], attached + [false],
                              evId + [|v.role|];
    forall x: nat | x < |v'.role|
      ensures SlotOk(x, v', t4, fl, at, id)
    {
      if x < |v.role| {
        assert SlotOk(x, v, w4, flags, attached, evId);
      }
    }
  }

  lemma AllocKeeps(s: State)
    requires Whole(s) && CanAlloc(s)
    ensures var (s', p) := Alloc(s);
            && Whole(s') && p < |s'.v.role| && s'.v.role[p] == Taken
            && s'.mem.Sized(|s'.v.role|) && |s'.flags| == |s'.attached| == |s'.v.role|
            && s'.mem.w4[p] == NULL && s'.flags[p] == NO_FLAGS && !s'.attached[p]
            && s'.v.q == s.v.q && s'.v.ready == s.v.ready && s'.v.sync == s.v.sync && s'.v.alive == s.v.alive
            && (forall x :: 0 <= x < |s.v.role| && x != p ==> s'.v.role[x] == s.v.role[x])
            && (p < |s.v.role| ==> s.v.role[p] == Free)
  {
    FreeEmptyIff(s);
    if s.evFree != NULL {
      ReuseKeeps(s);
      HeadIsFree(s);
      assert Holds(Slots, s);
      assert s.v.free[0] in s.v.free;
      assert SlotOk(s.v.free[0], s.v, s.mem.w4, s.flags, s.attached, s.evId);
    } else {
      CarveKeeps(s);
    }
    assert Holds(Sizes, Alloc(s).0);
  }

  // ---------------------------------------------------------------- release

  /** levq_free_event. */
  ghost function Release(s: State, p: nat): State
    requires s.mem.Sized(|s.v.role|) && p < |s.v.role|
  {
    s.(mem := s.mem.(w0 := s.mem.w0[p := s.evFree]), evFree := p,
       v := s.v.(role := s.v.role[p := Free], free := [p] + s.v.free))
  }

  ghost predicate IsTaken(s: State, p: nat) { p < |s.v.role| && s.v.role[p] == Taken }

  /** A taken slot is on no list and in no queue. */
  lemma TakenIsLoose(s: State, p: nat)
    requires Inv(s) && IsTaken(s, p)
    ensures s.mem.Sized(|s.v.role|) && |s.flags| == |s.attached| == |s.evId| == |s.v.role|
    ensures p !in s.v.free && p !in s.v.sync && p !in s.v.ready && p !in s.v.alive && Unqueued(s.v.q, p)
  {
    assert Holds(Sizes, s) && Holds(Slots, s);
    assert SlotOk(p, s.v, s.mem.w4, s.flags, s.attached, s.evId);
  }

  lemma ReleaseKeeps(s: State, p: nat)
    requires Whole(s) && IsTaken(s, p)
    ensures s.mem.Sized(|s.v.role|) && Whole(Release(s, p))
  {
    TakenIsLoose(s, p);
    var s' := Release(s, p);
    Facts(s);
    PushFree(s.mem.w0, s.evFree, s.syncOp, s.evReady, s.v, p);
    OtherWords(s.mem, s.tqHead, s.v.q, s.now, s'.mem.w0);
    SlotsMoved(s.v, s.mem.w4, s.flags, s.attached, s.evId, p, s'.v);
    Establish(s');
  }

  /** A taken slot goes to the free list or to the list of synchronous operations. */
  lemma SlotsMoved(v: View, w4: seq<int>, flags: seq<Flags>, attached: seq<bool>, evId: seq<int>, p: nat, v': View)
    requires SlotsOk(v, w4, flags, attached, evId) && p < |v.role| && v.role[p] == Taken
    requires v' == v.(role := v.role[p := Free], free := [p] + v.free)
          || v' == v.(role := v.role[p := Sync], sync := [p] + v.sync)
    ensures SlotsOk(v', w4, flags, attached, evId)
  {
    forall x: nat | x < |v.role|
      ensures SlotOk(x, v', w4, flags, attached, evId)
    {
      assert SlotOk(x, v, w4, flags, attached, evId);
    }
  }

  // ---------------------------------------------------------------- a new event, and its end

  /** evq_add and evq_add_timer: the event belongs to the queue. */
  ghost function Attach(s: State, p: nat, fl: Flags): State
    requires p < |s.flags| == |s.attached| == |s.v.role|
  {
    s.(flags := s.flags[p := fl], attached := s.attached[p := true], nevents := s.nevents + 1,
       v := s.v.(role := s.v.role[p := Event], alive := s.v.alive + {p}))
  }

  lemma AttachKeeps(s: State, p: nat, fl: Flags)
    requires Whole(s) && IsTaken(s, p) && s.mem.Sized(|s.v.role|) && s.mem.w4[p] == NULL && !fl.active && !fl.deleted
    ensures p < |s.flags| == |s.attached| == |s.v.role| && Whole(Attach(s, p, fl)) && IsEvent(Attach(s, p, fl), p)
  {
    TakenIsLoose(s, p);
    var s' := Attach(s, p, fl);
    Facts(s);
    SlotsAttached(s.v, s.mem.w4, s.flags, s.attached, s.evId, p, fl);
    Establish(s');
  }

  lemma SlotsAttached(v: View, w4: seq<int>, flags: seq<Flags>, attached: seq<bool>, evId: seq<int>, p: nat, fl: Flags)
    requires SlotsOk(v, w4, flags, attached, evId) && p < |v.role| && v.role[p] == Taken
    requires w4[p] == NULL && !fl.active && !fl.deleted
    ensures SlotsOk(v.(role := v.role[p := Event], alive := v.alive + {p}), w4, flags[p := fl], attached[p := true], evId)
  {
    var v', fl', at' := v.(role := v.role[p := Event], alive := v.alive + {p}), flags[p := fl], attached[p := true];
    assert SlotOk(p, v, w4, flags, attached, evId);
    forall x: nat | x < |v.role|
      ensures SlotOk(x, v', w4, fl', at', evId)
    {
      assert SlotOk(x, v, w4, flags, attached, evId);
    }
  }

  /** evq_del after timeout_del: ev->evq = NULL.  An event not on the ready list is then out of use. */
  ghost function Detach(s: State, e: nat): State
    requires e < |s.flags| == |s.attached| == |s.v.role|
  {
    s.(attached := s.attached[e := false], nevents := s.nevents - 1,
       v := s.v.(role := if s.flags[e].active then s.v.role else s.v.role[e := Taken], alive := s.v.alive - {e}))
  }

  lemma DetachKeeps(s: State, e: nat)
    requires Whole(s) && IsEvent(s, e) && s.mem.Sized(|s.v.role|) && s.mem.w4[e] == NULL
    requires e < |s.flags| == |s.attached| == |s.v.role| && s.attached[e]
    ensures Whole(Detach(s, e))
  {
    var s' := Detach(s, e);
    Facts(s);
    assert SlotOk(e, s.v, s.mem.w4, s.flags, s.attached, s.evId);
    NotQueued(s, e);
    SlotsDetached(s.v, s.mem.w4, s.flags, s.attached, s.evId, e);
    Establish(s');
  }

  lemma SlotsDetached(v: View, w4: seq<int>, flags: seq<Flags>, attached: seq<bool>, evId: seq<int>, e: nat)
    requires SlotsOk(v, w4, flags, attached, evId) && e < |v.role| && v.role[e] == Event && w4[e] == NULL
    requires forall ms :: ms in v.q.part ==> e !in v.q.part[ms]
    ensures SlotsOk(v.(role := if flags[e].active then v.role else v.role[e := Taken], alive := v.alive - {e}),
                    w4, flags, attached[e := false], evId)
  {
    var v' := v.(role := if flags[e].active then v.role else v.role[e := Taken], alive := v.alive - {e});
    var at' := attached[e := false];
    assert SlotOk(e, v, w4, flags, attached, evId);
    forall x: nat | x < |v.role|
      ensures SlotOk(x, v', w4, flags, at', evId)
    {
      assert SlotOk(x, v, w4, flags, attached, evId);
    }
  }

  // ---------------------------------------------------------------- the ready list

  /** The event gets the result flags `fl` and joins the ready list. */
  ghost function Enqueue(s: State, e: nat, fl: Flags): State
    requires s.mem.Sized(|s.v.role|) && e < |s.v.role| == |s.flags|
  {
    s.(mem := s.mem.(w0 := s.mem.w0[e := s.evReady]), evReady := e, flags := s.flags[e := fl],
       v := s.v.(ready := [e] + s.v.ready))
  }

  lemma EnqueueKeeps(s: State, e: nat, fl: Flags)
    requires Whole(s) && IsEvent(s, e) && e < |s.flags| && !s.flags[e].active
    requires fl.active && fl.deleted == s.flags[e].deleted
    ensures s.mem.Sized(|s.v.role|) && e < |s.v.role| == |s.flags| && Whole(Enqueue(s, e, fl))
  {
    Facts(s);
    var s' := Enqueue(s, e, fl);
    assert SlotOk(e, s.v, s.mem.w4, s.flags, s.attached, s.evId);
    PushReady(s.mem.w0, s.evFree, s.syncOp, s.evReady, s.v, e);
    OtherWords(s.mem, s.tqHead, s.v.q, s.now, s'.mem.w0);
    SlotsReady(s.v, s.mem.w4, s.flags, s.attached, s.evId, e, fl);
    Establish(s');
  }

  lemma SlotsReady(v: View, w4: seq<int>, flags: seq<Flags>, attached: seq<bool>, evId: seq<int>, e: nat, fl: Flags)
    requires SlotsOk(v, w4, flags, attached, evId) && e < |v.role| && v.role[e] == Event
    requires fl.active && fl.deleted == flags[e].deleted
    ensures SlotsOk(v.(ready := [e] + v.ready), w4, flags[e := fl], attached, evId)
  {
    var v', fl' := v.(ready := [e] + v.ready), flags[e := fl];
    forall x: nat | x < |v.role|
      ensures SlotOk(x, v', w4, fl', attached, evId)
    {
      assert SlotOk(x, v, w4, flags, attached, evId);
    }
  }

  /** The result flags are cleared. */
  function Unmarked(fl: Flags): Flags { fl.(active := false, readRes := false, timeoutRes := false) }

  /** The head of the ready list leaves it; an event already deleted is then out of use. */
  ghost function Dequeue(s: State): State
    requires s.v.ready != [] && s.mem.Sized(|s.v.role|) && s.v.ready[0] < |s.v.role| == |s.flags| == |s.attached|
  {
    var e := s.v.ready[0];
    s.(evReady := s.mem.w0[e], flags := s.flags[e := Unmarked(s.flags[e])],
       v := s.v.(ready := s.v.ready[1..], role := if s.attached[e] then s.v.role else s.v.role[e := Taken]))
  }

  lemma DequeueKeeps(s: State)
    requires Whole(s) && s.v.ready != []
    ensures s.mem.Sized(|s.v.role|) && s.v.ready[0] < |s.v.role| == |s.flags| == |s.attached|
    ensures s.evReady == s.v.ready[0] && IsEvent(s, s.v.ready[0]) && Whole(Dequeue(s))
    ensures s.attached[s.v.ready[0]] ==> !s.flags[s.v.ready[0]].deleted
  {
    Facts(s);
    var e := s.v.ready[0];
    assert e in s.v.ready;
    assert SlotOk(e, s.v, s.mem.w4, s.flags, s.attached, s.evId);
    var s' := Dequeue(s);
    ChainPop(s.mem.w0, s.evReady, s.v.ready);
    if !s.attached[e] { NotQueued(s, e); }
    SlotsUnready(s.v, s.mem.w4, s.flags, s.attached, s.evId);
    Establish(s');
  }

  lemma SlotsUnready(v: View, w4: seq<int>, flags: seq<Flags>, attached: seq<bool>, evId: seq<int>)
    requires SlotsOk(v, w4, flags, attached, evId)
    requires v.ready != [] && v.ready[0] < |v.role| && v.ready[0] !in v.ready[1..]
    requires !attached[v.ready[0]] ==> forall ms :: ms in v.q.part ==> v.ready[0] !in v.q.part[ms]
    ensures var e := v.ready[0];
            SlotsOk(v.(ready := v.ready[1..], role := if attached[e] then v.role else v.role[e := Taken]),
                    w4, flags[e := Unmarked(flags[e])], attached, evId)
  {
    var e := v.ready[0];
    var v' := v.(ready := v.ready[1..], role := if attached[e] then v.role else v.role[e := Taken]);
    var fl' := flags[e := Unmarked(flags[e])];
    assert v.ready == [e] + v.ready[1..];
    assert SlotOk(e, v, w4, flags, attached, evId);
    forall x: nat | x < |v.role|
      ensures SlotOk(x, v', w4, fl', attached, evId)
    {
      assert SlotOk(x, v, w4, flags, attached, evId);
    }
  }

  // ---------------------------------------------------------------- synchronous operations

  /** levq_sync_call: a taken slot becomes a pending operation of coroutine `co`. */
  ghost function PushOp(s: State, p: nat, co: nat): State
    requires s.mem.Sized(|s.v.role|) && p < |s.v.role|
  {
    s.(mem := s.mem.(w0 := s.mem.w0[p := s.syncOp], w1 := s.mem.w1[p := co]), syncOp := p,
       v := s.v.(role := s.v.role[p := Sync], sync := [p] + s.v.sync))
  }

  lemma PushOpKeeps(s: State, p: nat, co: nat)
    requires Whole(s) && IsTaken(s, p)
    ensures s.mem.Sized(|s.v.role|) && Whole(PushOp(s, p, co))
  {
    TakenIsLoose(s, p);
    var s' := PushOp(s, p, co);
    Facts(s);
    PushSync(s.mem.w0, s.evFree, s.syncOp, s.evReady, s.v, p);
    OtherSlot(s.mem, s'.mem, s.tqHead, s.v.q, s.now, p);
    SlotsMoved(s.v, s.mem.w4, s.flags, s.attached, s.evId, p, s'.v);
    Establish(s');
  }

  function TakenAll(role: seq<Role>, ps: seq<nat>): (r: seq<Role>)
    ensures |r| == |role|
  {
    seq(|role|, i requires 0 <= i < |role| => if i in ps then Taken else role[i])
  }

  /** sys_evq_loop detaches the whole list of synchronous operations. */
  ghost function DetachOps(s: State): State {
    s.(syncOp := NULL, v := s.v.(sync := [], role := TakenAll(s.v.role, s.v.sync)))
  }

  lemma DetachOpsKeeps(s: State)
    requires Whole(s)
    ensures Whole(DetachOps(s)) && Distinct(s.v.sync) && DetachOps(s).v.ready == s.v.ready
    ensures forall p: nat {:trigger IsTaken(DetachOps(s), p)} :: IsTaken(DetachOps(s), p) <==> IsTaken(s, p) || p in s.v.sync
    ensures forall p :: p in s.v.sync ==> !IsTaken(s, p)
  {
    Facts(s);
    var s' := DetachOps(s);
    SlotsDetachedOps(s.v, s.mem.w4, s.flags, s.attached, s.evId);
    Establish(s');
    forall p | p in s.v.sync
      ensures p < |s.v.role| && s.v.role[p] == Sync
    {
      assert SlotOk(p, s.v, s.mem.w4, s.flags, s.attached, s.evId);
    }
  }

  lemma SlotsDetachedOps(v: View, w4: seq<int>, flags: seq<Flags>, attached: seq<bool>, evId: seq<int>)
    requires SlotsOk(v, w4, flags, attached, evId)
    ensures SlotsOk(v.(sync := [], role := TakenAll(v.role, v.sync)), w4, flags, attached, evId)
  {
    var v' := v.(sync := [], role := TakenAll(v.role, v.sync));
    forall x: nat | x < |v.role|
      ensures SlotOk(x, v', w4, flags, attached, evId)
    {
      assert SlotOk(x, v, w4, flags, attached, evId);
    }
  }
}
