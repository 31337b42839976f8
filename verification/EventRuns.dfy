/**
 Every run of operations on the event queue, what every reachable state satisfies, and exactly when slots get
 lost.
 */
module EventRuns {
  import opened Lists
  import opened TimeoutLists
  import opened TimeoutState
  import opened EventSlots
  import opened EventState
  import opened EventProcess
  import opened EventExpiry
  import opened EventIds
  import opened EventOps
  import opened EventCalls

  // ---------------------------------------------------------------- every run

  datatype Op =
    | AddOp(a: Request)
    | DeleteOp(e: nat)
    | TimeoutOp(e: nat, ms: int)
    | ActivateOp(e: nat)
    | CancelOp(e: nat)
    | DrainOp
    | ProcessOp
    | ClockOp(now: int)
    | SyncOp(co: nat)
    | SyncProcessOp(calls: seq<Called>)

  /** One operation; one that its caller may not ask for in this state does nothing. */
  ghost function Do(s: State, op: Op): (r: State)
    requires Whole(s)
    ensures Whole(r)
  {
    Shape(s);
    match op
    case AddOp(a) => AddIf(s, a).0
    case DeleteOp(e) => if IsEvent(s, e) then Delete(s, e) else s
    case TimeoutOp(e, ms) =>
      var (s1, ok) := Reserve(s);
      Shape(s1);
      if ok && IsEvent(s1, e) && s1.attached[e] then SetTimeout(s1, e, ms).0 else s1
    case ActivateOp(e) => if IsEvent(s, e) && s.attached[e] then Activate(s, e) else s
    case CancelOp(e) => if IsEvent(s, e) then Cancel(s, e) else s
    case DrainOp => if s.v.ready != [] then Drain(s) else s
    case ProcessOp => if AllCalm(s) then ProcessKeeps(s); Process(s) else s
    case ClockOp(now) => if s.now <= now then TimePasses(s, now); s.(now := now) else s
    case SyncOp(co) =>
      if CanAlloc(s) then
        AllocKeeps(s);
        PushOpKeeps(Alloc(s).0, Alloc(s).1, co);
        PushOp(Alloc(s).0, Alloc(s).1, co)
      else s
    case SyncProcessOp(calls) => SyncProcess(s, calls)
  }

  lemma ProcessKeeps(s: State)
    requires Whole(s) && AllCalm(s)
    ensures Whole(Process(s))
  {
  }

  ghost function Run(s: State, ops: seq<Op>): (r: State)
    requires Whole(s)
    ensures Whole(r)
    decreases |ops|
  {
    if ops == [] then s else Run(Do(s, ops[0]), ops[1..])
  }

  /** levq_new. */
  function Init(useMap: bool, now: int): State {
    State(Mem([], [], [], [], [], []), [], [], [], NULL, NULL, NULL, NULL, map[], useMap, now, 0, 0, 0, 0,
          View([], [], [], [], {}, Queues([], map[], map[])))
  }

  lemma InitIsWhole(useMap: bool, now: int)
    ensures Whole(Init(useMap, now))
  {
    var s := Init(useMap, now);
    assert BufSize(0) == 64;
    forall c
      ensures Holds(c, s)
    {
    }
  }

  // ---------------------------------------------------------------- slots that get lost

  /**
   Slot `p` is on no list for good: a levq_add has taken it for the event and then raised an error, or a
   synchronous operation that raises one has cut off the others detached with it.
   */
  ghost predicate Leaks(s: State, op: Op, p: nat)
    requires Whole(s)
  {
    match op
    case AddOp(a) => AddLeaks(s, a, p)
    case SyncProcessOp(calls) => s.v.sync != [] && (DetachOpsKeeps(s); SyncLeaks(DetachOps(s), s.v.sync, calls, p))
    case _ => false
  }

  lemma DeleteTaken(s: State, e: nat)
    requires Whole(s) && IsEvent(s, e)
    ensures KeepsTaken(s, Delete(s, e))
  {
    Shape(s);
    assert Holds(Slots, s);
    assert SlotOk(e, s.v, s.mem.w4, s.flags, s.attached, s.evId);
    if s.attached[e] { EvqDelTaken(s, e); }
  }

  lemma ActivateTaken(s: State, e: nat)
    requires Whole(s) && IsEvent(s, e) && e < |s.attached| && s.attached[e]
    ensures KeepsTaken(s, Activate(s, e))
  {
    Shape(s);
    var fl := s.flags[e].(readRes := true);
    if !fl.active && fl.oneshot {
      EnqueueKeeps(s, e, fl.(active := true));
      EvqDelTaken(Enqueue(s, e, fl.(active := true)), e);
    }
  }

  lemma DrainTaken(s: State)
    requires Whole(s) && s.v.ready != []
    ensures KeepsTaken(s, Drain(s))
  {
    DequeueKeeps(s);
    var e := s.v.ready[0];
    var s1 := Dequeue(s);
    Shape(s);
    Shape(s1);
    DequeuedHead(s);
    if s.attached[e] && s.flags[e].oneshot { EvqDelTaken(s1, e); }
  }

  lemma SyncTaken(s: State, co: nat)
    requires Whole(s)
    ensures KeepsTaken(s, Do(s, SyncOp(co)))
  {
    if CanAlloc(s) {
      AllocKeeps(s);
      AllocLength(s);
    }
  }

  lemma SyncProcessTaken(s: State, calls: seq<Called>, p: nat)
    requires Whole(s)
    ensures IsTaken(SyncProcess(s, calls), p) <==> IsTaken(s, p) || Leaks(s, SyncProcessOp(calls), p)
  {
    if s.v.sync != [] {
      DetachOpsKeeps(s);
      SyncTakenIff(DetachOps(s), s.v.sync, calls, p);
    }
  }

  /** An operation takes a slot for good if and only if it leaks it. */
  lemma TakenIff(s: State, op: Op, p: nat)
    requires Whole(s)
    ensures IsTaken(Do(s, op), p) <==> IsTaken(s, p) || Leaks(s, op, p)
  {
    Shape(s);
    match op {
      case AddOp(a) => AddTaken(s, a, p);
      case DeleteOp(e) => if IsEvent(s, e) { DeleteTaken(s, e); }
      case TimeoutOp(e, ms) =>
        ReserveTaken(s);
        var (s1, ok) := Reserve(s);
        Shape(s1);
        if ok && IsEvent(s1, e) && s1.attached[e] { SetTaken(s1, e, ms); }
      case ActivateOp(e) => if IsEvent(s, e) && s.attached[e] { ActivateTaken(s, e); }
      case CancelOp(e) =>
      case DrainOp => if s.v.ready != [] { DrainTaken(s); }
      case ProcessOp =>
      case ClockOp(now) =>
      case SyncOp(co) => SyncTaken(s, co);
      case SyncProcessOp(calls) => SyncProcessTaken(s, calls, p);
    }
  }

  /** Slot `p` is leaked in the course of the run. */
  ghost predicate Lost(s: State, ops: seq<Op>, p: nat)
    requires Whole(s)
    decreases |ops|
  {
    ops != [] && (Leaks(s, ops[0], p) || Lost(Do(s, ops[0]), ops[1..], p))
  }

  lemma {:induction false} LostIff(s: State, ops: seq<Op>, p: nat)
    requires Whole(s)
    ensures IsTaken(Run(s, ops), p) <==> IsTaken(s, p) || Lost(s, ops, p)
    decreases |ops|
  {
    if ops != [] {
      TakenIff(s, ops[0], p);
      LostIff(Do(s, ops[0]), ops[1..], p);
    }
  }

  /** What a slot can be between operations. */
  datatype Use = Live | Doomed | TimeoutQueue | SyncCall | Unused

  ghost predicate Has(u: Use, s: State, p: nat) {
    match u
    case Live => p in s.v.alive
    case Doomed => p in s.v.ready && p !in s.v.alive
    case TimeoutQueue => p in s.v.q.tqs
    case SyncCall => p in s.v.sync
    case Unused => p in s.v.free
  }

  /** A slot has exactly one use unless it is taken, and then none. */
  lemma OneUse(s: State, p: nat)
    requires Inv(s) && p < |s.v.role|
    ensures IsTaken(s, p) <==> forall u {:trigger Has(u, s, p)} :: !Has(u, s, p)
    ensures forall u, u' {:trigger Has(u, s, p), Has(u', s, p)} :: Has(u, s, p) && Has(u', s, p) ==> u == u'
  {
    assert Holds(Slots, s);
    assert SlotOk(p, s.v, s.mem.w4, s.flags, s.attached, s.evId);
    if s.v.role[p] != Taken {
      assert Has(Live, s, p) || Has(Doomed, s, p) || Has(TimeoutQueue, s, p) || Has(SyncCall, s, p) || Has(Unused, s, p);
    }
  }

  /**
   After every run from a state without taken slots, such as a new queue, each slot carved so far either
   has exactly one use - live event, deleted event still on the ready list, timeout queue, pending
   operation or free - or has none, and that if and only if an operation of the run leaked it.
   */
  lemma EverySlotHasOneRole(s0: State, ops: seq<Op>, s: State, p: nat)
    requires Whole(s0) && (forall x: nat :: !IsTaken(s0, x)) && s == Run(s0, ops) && p < |s.v.role|
    ensures Lost(s0, ops, p) <==> forall u {:trigger Has(u, s, p)} :: !Has(u, s, p)
    ensures forall u, u' {:trigger Has(u, s, p), Has(u', s, p)} :: Has(u, s, p) && Has(u', s, p) ==> u == u'
    ensures Distinct(s.v.free) && Chain(s.mem.w0, s.evFree, s.v.free)
    ensures p < |s.evId| && s.evId[p] == p
  {
    LostIff(s0, ops, p);
    OneUse(s, p);
    assert Holds(Slots, s) && Holds(Chains, s);
    assert SlotOk(p, s.v, s.mem.w4, s.flags, s.attached, s.evId);
  }

  /** No operation of the run is cut short while it holds slots. */
  ghost predicate Roomy(s: State, ops: seq<Op>)
    requires Whole(s)
    decreases |ops|
  {
    ops == [] || (!Short(s, ops[0]) && Roomy(Do(s, ops[0]), ops[1..]))
  }

  /**
   A levq_add gets a slot for the event, and then none for a queue, a path that is no string, or no memory;
   or such an error cuts off synchronous operations.
   */
  ghost predicate Short(s: State, op: Op)
    requires Whole(s)
  {
    match op
    case AddOp(a) => AddShort(s, a)
    case SyncProcessOp(calls) => s.v.sync != [] && (DetachOpsKeeps(s); SyncShort(DetachOps(s), s.v.sync, calls))
    case _ => false
  }

  lemma LeaksShort(s: State, op: Op, p: nat)
    requires Whole(s) && Leaks(s, op, p)
    ensures Short(s, op)
  {
    if op.SyncProcessOp? {
      DetachOpsKeeps(s);
      SyncLeaksShort(DetachOps(s), s.v.sync, op.calls, p);
    }
  }

  lemma ShortLeaks(s: State, op: Op) returns (p: nat)
    requires Whole(s) && Short(s, op)
    ensures Leaks(s, op, p)
  {
    if op.SyncProcessOp? {
      DetachOpsKeeps(s);
      p := SyncShortLeaks(DetachOps(s), s.v.sync, op.calls);
    } else {
      p := Alloc(s).1;
    }
  }

  lemma {:induction false} RoomyLosesNothing(s: State, ops: seq<Op>, p: nat)
    requires Whole(s) && Roomy(s, ops)
    ensures !Lost(s, ops, p)
    decreases |ops|
  {
    if ops != [] {
      if Leaks(s, ops[0], p) {
        LeaksShort(s, ops[0], p);
      }
      RoomyLosesNothing(Do(s, ops[0]), ops[1..], p);
    }
  }

  lemma {:induction false} NotRoomyLoses(s: State, ops: seq<Op>) returns (p: nat)
    requires Whole(s) && !Roomy(s, ops)
    ensures Lost(s, ops, p)
    decreases |ops|
  {
    if Short(s, ops[0]) {
      p := ShortLeaks(s, ops[0]);
    } else {
      p := NotRoomyLoses(Do(s, ops[0]), ops[1..]);
    }
  }

  /** A slot is lost if and only if some operation of the run is cut short while it holds slots. */
  lemma LossIff(s: State, ops: seq<Op>)
    requires Whole(s)
    ensures !Roomy(s, ops) <==> LosesSome(s, ops)
  {
    if !Roomy(s, ops) {
      var p := NotRoomyLoses(s, ops);
      assert Lost(s, ops, p);
    } else if LosesSome(s, ops) {
      var p: nat :| Lost(s, ops, p);
      RoomyLosesNothing(s, ops, p);
    }
  }

  ghost predicate LosesSome(s: State, ops: seq<Op>)
    requires Whole(s)
  {
    exists p: nat {:trigger Lost(s, ops, p)} :: Lost(s, ops, p)
  }

  /** Every timeout queue of a reachable state is a nonempty sorted list whose events point back to it. */
  lemma EveryQueueInOrder(s0: State, ops: seq<Op>, s: State, ms: int)
    requires Whole(s0) && s == Run(s0, ops) && ms in s.v.q.part
    ensures ms in s.v.q.idx && s.v.q.idx[ms] in s.v.q.tqs && s.v.q.part[ms] != []
    ensures QueueLinks(s.mem, s.v.q.idx[ms], s.v.q.part[ms])
    ensures QueueDue(s.mem.due, s.v.q.part[ms], s.now + ms)
  {
    assert Holds(QueueList, s) && Holds(Contents, s);
    assert OneOk(s.mem, s.v.q, ms, s.now);
  }

  /**
   In every reachable state the queues are a doubly linked list, one for each timeout with events and each
   with its timeout; the map, if there is one, holds exactly these, and without it the list is sorted.
   */
  lemma EveryQueueFound(s0: State, ops: seq<Op>, s: State)
    requires Whole(s0) && s == Run(s0, ops)
    ensures Dll(s.mem.w0, s.mem.w1, s.v.q.tqs) && s.tqHead == At(s.v.q.tqs, 0) && Within(s.v.q.tqs, |s.mem.w4|)
    ensures s.v.q.idx.Keys == s.v.q.part.Keys
    ensures forall ms :: ms in s.v.q.idx ==> s.v.q.idx[ms] in s.v.q.tqs && s.mem.w4[s.v.q.idx[ms]] == ms
    ensures forall q :: q in s.v.q.tqs ==> s.mem.w4[q] in s.v.q.idx && s.v.q.idx[s.mem.w4[q]] == q
    ensures s.useMap ==> s.tqMap == s.v.q.idx
    ensures !s.useMap ==> forall i, j :: 0 <= i < j < |s.v.q.tqs| ==> s.mem.w4[s.v.q.tqs[i]] < s.mem.w4[s.v.q.tqs[j]]
  {
    Facts(s);
  }
}
