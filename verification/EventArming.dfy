/** What levq_add makes, and that every run keeps the queues to finite timeouts. */
module EventArming {
  import opened Lists
  import opened TimeoutLists
  import opened TimeoutState
  import opened EventSlots
  import opened EventState
  import opened EventExpiry
  import opened EventOps
  import opened EventCalls
  import opened EventRuns
  import opened EventLookup
  import opened EventEffects
  import opened EventTwins

  // ---------------------------------------------------------------- levq_add

  /** Slots in no queue come and go. */
  ghost predicate SlotsOnly(s: State, r: State, e: nat) {
    && r.v.q == s.v.q && r.v.alive == s.v.alive && r.v.ready == s.v.ready && r.now == s.now
    && RestKeeps(s, r, e) && BitsStay(s, r, e)
  }

  lemma AllocTakes(s: State)
    requires Whole(s) && CanAlloc(s)
    ensures SlotsOnly(s, Alloc(s).0, Alloc(s).1) && InNoQueue(s, Alloc(s).1) && Alloc(s).1 !in s.v.alive
  {
    AllocKeeps(s);
    FreeEmptyIff(s);
    Shape(s);
    var (s1, p) := Alloc(s);
    TakenIsLoose(s1, p);
  }

  /** Reserving adds a slot behind all others, or none. */
  lemma ReserveTakes(s: State, e: nat)
    requires Whole(s)
    ensures SlotsOnly(s, Reserve(s).0, e) && (Reserve(s).1 <==> CanAlloc(s))
    ensures forall x: nat {:trigger BitsOf(Reserve(s).0, x)} :: x < |s.flags| ==> BitsOf(Reserve(s).0, x) == BitsOf(s, x)
  {
    FreeEmptyIff(s);
    Shape(s);
    if s.evFree == NULL && CanAlloc(s) {
      AllocKeeps(s);
      TakenIsLoose(Alloc(s).0, Alloc(s).1);
    }
  }

  /** A new event `e` with these flags and timeout, all others being as they were. */
  ghost predicate Makes(s: State, r: State, e: nat, fl: Flags, ms: int) {
    && r.v.alive == s.v.alive + {e} && e !in s.v.alive && r.v.ready == s.v.ready && BitsOf(r, e) == (fl, true)
    && RestKeeps(s, r, e) && BitsStay(s, r, e) && AllFinite(r)
    && if ms != TIMEOUT_INFINITE then Armed(r, e, ms, s.now + ms) else InNoQueue(r, e)
  }

  lemma PlacedMakes(s1: State, p: nat, fl: Flags, ms: int, polled: bool)
    requires Whole(s1) && AllFinite(s1) && IsTaken(s1, p) && !fl.active && !fl.deleted && CanAlloc(s1)
    requires fl.timer || polled
    requires s1.mem.Sized(|s1.v.role|) && s1.mem.w4[p] == NULL && p !in s1.v.alive
    ensures Makes(s1, Placed(s1, p, fl, ms, polled), p, fl, ms)
  {
    TakenIsLoose(s1, p);
    ReserveTakes(s1, p);
    var s2 := Reserve(s1).0;
    Shape(s2);
    AttachKeeps(s2, p, fl);
    var s3 := Attach(s2, p, fl);
    SetTimeoutArms(s3, p, ms);
    SetMakes(s1, s2, s3, SetTimeout(s3, p, ms).0, p, fl, ms);
  }

  lemma SetMakes(s1: State, s2: State, s3: State, r: State, p: nat, fl: Flags, ms: int)
    requires SlotsOnly(s1, s2, p) && p < |s2.flags| == |s2.attached| == |s2.v.role| && s3 == Attach(s2, p, fl)
    requires IsSet(s3, r, true, p, ms) && TimeoutsOnly(s3, r) && AllFinite(r) && p !in s1.v.alive
    ensures Makes(s1, r, p, fl, ms)
  {
    forall x: nat | x < |s1.mem.due| && x != p
      ensures DueOf(r, x) == DueOf(s1, x)
    {
      assert DueOf(s2, x) == DueOf(s1, x) && DueOf(s3, x) == DueOf(s2, x);
    }
    forall x: nat | x < |s1.flags| && x != p
      ensures BitsOf(r, x) == BitsOf(s1, x)
    {
      assert BitsOf(s2, x) == BitsOf(s1, x);
    }
  }

  /** No event has been touched. */
  ghost predicate Untouched(s: State, r: State) {
    && r.v.q == s.v.q && r.v.alive == s.v.alive && r.v.ready == s.v.ready
    && forall x: nat {:trigger BitsOf(r, x)} {:trigger DueOf(r, x)} :: IsEvent(s, x) ==>
         BitsOf(r, x) == BitsOf(s, x) && DueOf(r, x) == DueOf(s, x)
  }

  lemma SlotsUntouched(s: State, r: State, p: nat)
    requires Whole(s) && SlotsOnly(s, r, p) && !IsEvent(s, p)
    ensures Untouched(s, r)
  {
    Shape(s);
  }

  lemma SlotsTwice(s: State, s1: State, s2: State, p: nat)
    requires SlotsOnly(s, s1, p) && SlotsOnly(s1, s2, p)
    ensures SlotsOnly(s, s2, p)
  {
    RestTwice(s, s1, s2, p);
    forall x: nat | x < |s.flags| && x != p
      ensures BitsOf(s2, x) == BitsOf(s, x)
    {
      assert BitsOf(s1, x) == BitsOf(s, x);
    }
  }

  lemma MakesAfter(s: State, s1: State, r: State, p: nat, fl: Flags, ms: int)
    requires SlotsOnly(s, s1, p) && Makes(s1, r, p, fl, ms)
    ensures Makes(s, r, p, fl, ms)
  {
    RestTwice(s, s1, r, p);
    forall x: nat | x < |s.flags| && x != p
      ensures BitsOf(r, x) == BitsOf(s, x)
    {
      assert BitsOf(s1, x) == BitsOf(s, x);
    }
  }

  lemma ReleaseOnly(s: State, p: nat)
    requires s.mem.Sized(|s.v.role|) && p < |s.v.role| && |s.flags| == |s.attached| == |s.v.role|
    ensures SlotsOnly(s, Release(s, p), p)
  {
  }

  /**
   levq_add that succeeds makes one event, with its flags and armed with its timeout, and all others stay as
   they are; if it fails or raises an error, no event is touched.
   */
  lemma AddMakes(s: State, a: Request)
    requires Whole(s) && AllFinite(s) && Proper(a)
    ensures if Add(s, a).1.Added? then Makes(s, Add(s, a).0, Add(s, a).1.ev, a.fl, a.ms) else Untouched(s, Add(s, a).0)
    ensures Add(s, a).1 == TooMany <==> !CanAlloc(s) || (a.upset == Smooth && !CanAlloc(Alloc(s).0))
    ensures Add(s, a).1 == Raised <==> CanAlloc(s) && a.upset != Smooth
    ensures Add(s, a).1 == Failed ==> !a.fl.timer && !a.polled
  {
    if CanAlloc(s) {
      AllocKeeps(s);
      AllocTakes(s);
      var (s1, p) := Alloc(s);
      TakenIsLoose(s1, p);
      AllocatedIsNoEvent(s);
      ReserveTakes(s1, p);
      if a.upset != Smooth {
        SlotsUntouched(s, s1, p);
      } else if !CanAlloc(s1) || !(a.fl.timer || a.polled) {
        AddGivesUp(s, s1, p, a);
      } else {
        PlacedMakes(s1, p, a.fl, a.ms, a.polled);
        MakesAfter(s, s1, Placed(s1, p, a.fl, a.ms, a.polled), p, a.fl, a.ms);
      }
    }
  }

  lemma AllocatedIsNoEvent(s: State)
    requires Whole(s) && CanAlloc(s)
    ensures !IsEvent(s, Alloc(s).1)
  {
    FreeEmptyIff(s);
    if s.v.free != [] { FreeIsNoEvent(s); }
  }

  /** No slot for a queue, or the kernel side fails: the slot stays taken or is given back. */
  lemma AddGivesUp(s: State, s1: State, p: nat, a: Request)
    requires Whole(s) && Whole(s1) && IsTaken(s1, p) && SlotsOnly(s, s1, p) && !IsEvent(s, p)
    requires s1.mem.Sized(|s1.v.role|) && s1.mem.w4[p] == NULL && Proper(a)
    requires !CanAlloc(s1) || !(a.fl.timer || a.polled)
    ensures if CanAlloc(s1) then Untouched(s, Placed(s1, p, a.fl, a.ms, a.polled)) else Untouched(s, Reserve(s1).0)
  {
    ReserveTakes(s1, p);
    var s2 := Reserve(s1).0;
    SlotsTwice(s, s1, s2, p);
    if CanAlloc(s1) {
      Shape(s2);
      ReleaseOnly(s2, p);
      SlotsTwice(s, s2, Release(s2, p), p);
      SlotsUntouched(s, Release(s2, p), p);
    } else {
      SlotsUntouched(s, s2, p);
    }
  }

  // ---------------------------------------------------------------- levq_timeout

  /** sys_evq_timeout of an event that belongs to the queue arms it anew, unless there is no slot to reserve. */
  lemma TimeoutOpArms(s: State, e: nat, ms: int)
    requires Whole(s) && AllFinite(s) && IsEvent(s, e) && e < |s.attached| && s.attached[e]
    ensures var r := Do(s, TimeoutOp(e, ms));
            && AllFinite(r) && r.v.alive == s.v.alive && r.v.ready == s.v.ready
            && RestKeeps(s, r, e) && BitsOf(r, e) == BitsOf(s, e)
            && if !CanAlloc(s) then Untouched(s, r)
               else if ms != TIMEOUT_INFINITE then Armed(r, e, ms, s.now + ms) else InNoQueue(r, e)
  {
    Shape(s);
    ReserveTakes(s, e);
    var s1 := Reserve(s).0;
    Shape(s1);
    assert BitsOf(s1, e) == BitsOf(s, e);
    if CanAlloc(s) {
      SetTimeoutArms(s1, e, ms);
      RestTwice(s, s1, SetTimeout(s1, e, ms).0, e);
    } else {
      Shape(s);
    }
  }

  // ---------------------------------------------------------------- levq_sync_process

  /** A pending operation is the first of the list, and knows its coroutine. */
  lemma SyncOpPends(s: State, co: nat)
    requires Whole(s) && CanAlloc(s)
    ensures var p, r := Alloc(s).1, Do(s, SyncOp(co));
            && r.v.sync == [p] + s.v.sync && p < |r.mem.w1| && r.mem.w1[p] == co && r.syncOp == p
            && Untouched(s, r)
  {
    AllocKeeps(s);
    AllocTakes(s);
    AllocatedIsNoEvent(s);
    var (s1, p) := Alloc(s);
    TakenIsLoose(s1, p);
    PushOpKeeps(s1, p, co);
    SlotsUntouched(s, s1, p);
    assert Do(s, SyncOp(co)) == PushOp(s1, p, co);
    forall x: nat | IsEvent(s, x)
      ensures BitsOf(PushOp(s1, p, co), x) == BitsOf(s, x) && DueOf(PushOp(s1, p, co), x) == DueOf(s, x)
    {
      assert BitsOf(s1, x) == BitsOf(s, x) && DueOf(s1, x) == DueOf(s, x);
    }
  }

  ghost function AsSet(s: seq<nat>): set<nat> { set x | x in s }

  /** The events that belong to the queue are those there were and those made. */
  ghost predicate Gains(s: State, r: State, made: seq<nat>) {
    r.v.alive == s.v.alive + AsSet(made)
  }

  lemma GainsNone(s: State, r: State)
    requires r.v.alive == s.v.alive
    ensures Gains(s, r, [])
  {
    assert AsSet([]) == {};
    assert s.v.alive + {} == s.v.alive;
  }

  lemma GainsBoth(s: State, s1: State, s2: State, a: seq<nat>, b: seq<nat>)
    requires Gains(s, s1, a) && Gains(s1, s2, b)
    ensures Gains(s, s2, a + b)
  {
    assert AsSet(a + b) == AsSet(a) + AsSet(b);
  }

  lemma GainsOne(s: State, r: State, e: nat)
    requires r.v.alive == s.v.alive + {e}
    ensures Gains(s, r, [e])
  {
    assert AsSet([e]) == {e};
  }

  lemma AddGains(s: State, a: Request)
    requires Whole(s) && AllFinite(s)
    ensures Gains(s, AddIf(s, a).0, AddMade(s, a)) && AllFinite(AddIf(s, a).0)
  {
    if Proper(a) { AddMakes(s, a); }
    if AddIf(s, a).1.Added? {
      GainsOne(s, AddIf(s, a).0, AddIf(s, a).1.ev);
    } else {
      GainsNone(s, AddIf(s, a).0);
    }
  }

  /** The operations worked off make the events their levq_add calls make, and no event goes. */
  lemma {:induction false} SyncMakes(s: State, rest: seq<nat>, calls: seq<Called>)
    requires Whole(s) && Held(s, rest) && AllFinite(s)
    ensures Gains(s, SyncFrom(s, rest, calls), SyncMade(s, rest, calls))
    decreases |rest|, 0
  {
    if rest == [] {
      GainsNone(s, s);
    } else {
      ReleaseHeld(s, rest);
      var s1 := Release(s, rest[0]);
      GainsNone(s, s1);
      match FirstCall(calls) {
        case Cancelled =>
          SyncMakes(s1, rest[1..], OtherCalls(calls));
          GainsBoth(s, s1, SyncFrom(s1, rest[1..], OtherCalls(calls)), [], SyncMade(s1, rest[1..], OtherCalls(calls)));
          assert [] + SyncMade(s1, rest[1..], OtherCalls(calls)) == SyncMade(s, rest, calls);
        case Fails =>
        case Adds(a) =>
          AddHeld(s1, rest[1..], a);
          SyncAddMakes(s, s1, AddIf(s1, a).0, rest[1..], a, OtherCalls(calls));
      }
    }
  }

  lemma SyncAddMakes(s: State, s1: State, s2: State, rest: seq<nat>, a: Request, calls: seq<Called>)
    requires Whole(s1) && Whole(s2) && AllFinite(s1) && s2 == AddIf(s1, a).0 && Held(s2, rest) && Gains(s, s1, [])
    ensures if Raises(AddIf(s1, a).1) then Gains(s, s2, AddMade(s1, a) + [])
            else Gains(s, SyncFrom(s2, rest, calls), AddMade(s1, a) + SyncMade(s2, rest, calls))
    decreases |rest|, 1
  {
    AddGains(s1, a);
    GainsBoth(s, s1, s2, [], AddMade(s1, a));
    assert [] + AddMade(s1, a) == AddMade(s1, a) == AddMade(s1, a) + [];
    if !Raises(AddIf(s1, a).1) {
      SyncMakes(s2, rest, calls);
      GainsBoth(s, s2, SyncFrom(s2, rest, calls), AddMade(s1, a), SyncMade(s2, rest, calls));
    }
  }

  /** With room for a queue, the first of the operations makes its event, in the slot it has freed itself. */
  lemma SyncFirstMakes(s: State, rest: seq<nat>, a: Request, calls: seq<Called>) returns (s': State)
    requires Whole(s) && Held(s, rest) && AllFinite(s) && rest != [] && CanCarve(s)
    requires calls != [] && calls[0] == Adds(a) && Proper(a) && a.upset == Smooth && (a.fl.timer || a.polled)
    ensures Whole(s') && Held(s', rest[1..]) && Makes(s, s', rest[0], a.fl, a.ms)
    ensures SyncFrom(s, rest, calls) == SyncFrom(s', rest[1..], calls[1..])
  {
    ReleaseHeld(s, rest);
    var s1 := Release(s, rest[0]);
    Shape(s);
    ReleaseOnly(s, rest[0]);
    AddHeld(s1, rest[1..], a);
    AddMakes(s1, a);
    s' := AddIf(s1, a).0;
    MakesAfter(s, s1, s', rest[0], a.fl, a.ms);
  }

  // ---------------------------------------------------------------- every run

  lemma {:induction false} SyncFinite(s: State, rest: seq<nat>, calls: seq<Called>)
    requires Whole(s) && Held(s, rest) && AllFinite(s)
    ensures AllFinite(SyncFrom(s, rest, calls))
    decreases |rest|
  {
    if rest != [] {
      ReleaseHeld(s, rest);
      var s1 := Release(s, rest[0]);
      match FirstCall(calls) {
        case Cancelled => SyncFinite(s1, rest[1..], OtherCalls(calls));
        case Fails =>
        case Adds(a) =>
          AddHeld(s1, rest[1..], a);
          if Proper(a) { AddMakes(s1, a); }
          if !Raises(AddIf(s1, a).1) { SyncFinite(AddIf(s1, a).0, rest[1..], OtherCalls(calls)); }
      }
    }
  }

  lemma StepFinite(s: State, op: Op)
    requires Whole(s) && AllFinite(s)
    ensures AllFinite(Do(s, op))
  {
    Shape(s);
    match op {
      case AddOp(a) => if Proper(a) { AddMakes(s, a); }
      case DeleteOp(e) => if IsEvent(s, e) { DeleteDisarms(s, e); }
      case TimeoutOp(e, ms) =>
        ReserveTakes(s, e);
        var s1 := Reserve(s).0;
        Shape(s1);
        if Reserve(s).1 && IsEvent(s1, e) && s1.attached[e] { SetTimeoutArms(s1, e, ms); }
      case ActivateOp(e) => if IsEvent(s, e) && s.attached[e] { ActivateMakesReady(s, e); }
      case CancelOp(e) => if IsEvent(s, e) { CancelMakesReady(s, e); }
      case DrainOp => if s.v.ready != [] { DrainHandles(s); }
      case ProcessOp =>
      case ClockOp(now) =>
      case SyncOp(co) => if CanAlloc(s) { AllocTakes(s); }
      case SyncProcessOp(calls) =>
        if s.v.sync != [] {
          DetachOpsKeeps(s);
          SyncFinite(DetachOps(s), s.v.sync, calls);
        }
    }
  }

  /** In every run from a new queue on no event is queued for ever. */
  lemma {:induction false} AlwaysFinite(s: State, ops: seq<Op>)
    requires Whole(s) && AllFinite(s)
    ensures AllFinite(Run(s, ops))
    decreases |ops|
  {
    if ops != [] {
      StepFinite(s, ops[0]);
      AlwaysFinite(Do(s, ops[0]), ops[1..]);
    }
  }

  /** nevents counts the events that belong to the queue. */
  lemma EventsCounted(s0: State, ops: seq<Op>, s: State, e: nat)
    requires Whole(s0) && s == Run(s0, ops) && e < |s.v.role|
    ensures s.nevents == |s.v.alive| && e < |s.attached|
    ensures e in s.v.alive <==> IsEvent(s, e) && s.attached[e]
  {
    Shape(s);
    assert Holds(Slots, s);
    assert SlotOk(e, s.v, s.mem.w4, s.flags, s.attached, s.evId);
  }
}
