/**
 Every single operation on two event queues that are alike up to a renaming of slots keeps them alike, and
 the events it makes are counterparts.
 */
module EventTwins {
  import opened Lists
  import opened TimeoutLists
  import opened EventSlots
  import opened EventState
  import opened EventExpiry
  import opened EventOps
  import opened EventCalls
  import opened EventRuns
  import opened EventLookup
  import opened EventTurns

  /** Slots of counterparts, or of no events. */
  ghost predicate Twins(s: State, t: State, f: map<nat, nat>, e: nat, e': nat) {
    if IsEvent(s, e) then e in f && e' == f[e] else e >= |s.v.role| && e' >= |t.v.role|
  }

  /** Some events are left of those of `f`. */
  ghost predicate PartOf(g: map<nat, nat>, f: map<nat, nat>) {
    forall e {:trigger e in g} :: e in g ==> e in f && g[e] == f[e]
  }

  lemma LengthAlike(s: State, t: State, f: map<nat, nat>)
    requires Same(s, t, f)
    ensures |s.v.role| == |t.v.role| && s.now == t.now && |s.v.sync| == |t.v.sync|
  {
    assert Alike(Numbers, s, t, f);
  }

  /** The events a call of levq_add makes: one or none. */
  ghost function AddMade(s: State, a: Request): seq<nat>
    requires Whole(s)
  {
    if AddIf(s, a).1.Added? then [AddIf(s, a).1.ev] else []
  }

  /** `f` with the events `a` taken to the events `b`. */
  ghost function Grown(f: map<nat, nat>, a: seq<nat>, b: seq<nat>): map<nat, nat>
    requires |a| == |b|
    decreases |a|
  {
    if a == [] then f else Grown(f[a[0] := b[0]], a[1..], b[1..])
  }

  /** None of the events `a` was there before. */
  ghost predicate NewOnes(f: map<nat, nat>, a: seq<nat>, b: seq<nat>)
    requires |a| == |b|
    decreases |a|
  {
    a == [] || (a[0] !in f && NewOnes(f[a[0] := b[0]], a[1..], b[1..]))
  }

  /** After an operation that makes the events `a` and `b` the events are those left, or those and the new ones. */
  ghost predicate Follows(g: map<nat, nat>, f: map<nat, nat>, a: seq<nat>, b: seq<nat>) {
    |a| == |b| && if a == [] then PartOf(g, f) else NewOnes(f, a, b) && g == Grown(f, a, b)
  }

  /** levq_add: the new events are counterparts. */
  lemma SameAddEvent(s: State, t: State, f: map<nat, nat>, a: Request) returns (g: map<nat, nat>)
    requires Whole(s) && Whole(t) && Same(s, t, f)
    ensures Same(AddIf(s, a).0, AddIf(t, a).0, g)
    ensures Raises(AddIf(s, a).1) == Raises(AddIf(t, a).1) && |AddMade(s, a)| == |AddMade(t, a)|
    ensures NewOnes(f, AddMade(s, a), AddMade(t, a)) && g == Grown(f, AddMade(s, a), AddMade(t, a))
  {
    FreeAlike(s, t, f);
    g := f;
    if Proper(a) && CanAlloc(s) {
      AllocKeeps(s);
      AllocKeeps(t);
      SameAlloc(s, t, f);
      var (s1, p) := Alloc(s);
      var (t1, q) := Alloc(t);
      TakenIsLoose(s1, p);
      TakenIsLoose(t1, q);
      SameReserve(s1, t1, f);
      if a.upset == Smooth && Reserve(s1).1 {
        g := SamePlaced(s1, t1, f, p, q, a.fl, a.ms, a.polled);
        if a.fl.timer || a.polled { GrownByOne(f, p, q); }
      }
    }
  }

  lemma GrownByOne(f: map<nat, nat>, p: nat, q: nat)
    requires p !in f
    ensures NewOnes(f, [p], [q]) && Grown(f, [p], [q]) == f[p := q]
  {
    assert [p][1..] == [] && [q][1..] == [];
  }

  lemma SamePlaced(s: State, t: State, f: map<nat, nat>, p: nat, q: nat, fl: Flags, ms: int, polled: bool)
      returns (g: map<nat, nat>)
    requires Whole(s) && Whole(t) && IsTaken(s, p) && IsTaken(t, q) && !fl.active && !fl.deleted
    requires s.mem.Sized(|s.v.role|) && s.mem.w4[p] == NULL && t.mem.Sized(|t.v.role|) && t.mem.w4[q] == NULL
    requires Same(s, t, f) && Same(Reserve(s).0, Reserve(t).0, f)
    ensures Same(Placed(s, p, fl, ms, polled), Placed(t, q, fl, ms, polled), g)
    ensures p !in f && g == if fl.timer || polled then f[p := q] else f
  {
    TakenIsLoose(s, p);
    TakenIsLoose(t, q);
    var s2, t2 := Reserve(s).0, Reserve(t).0;
    Shape(s2);
    Shape(t2);
    assert Alike(Handles, s, t, f);
    if fl.timer || polled {
      AttachKeeps(s2, p, fl);
      AttachKeeps(t2, q, fl);
      SameAttach(s2, t2, f, p, q, fl);
      g := f[p := q];
      SameSet(Attach(s2, p, fl), Attach(t2, q, fl), g, p, ms);
    } else {
      SameRelease(s2, t2, f, p, q);
      g := f;
    }
  }

  /** sys_evq_timeout, which reserves a slot first. */
  lemma SameTimeoutOp(s: State, t: State, f: map<nat, nat>, e: nat, e': nat, ms: int)
    requires Whole(s) && Whole(t) && Same(s, t, f) && Twins(s, t, f, e, e')
    ensures Same(Do(s, TimeoutOp(e, ms)), Do(t, TimeoutOp(e', ms)), f)
  {
    SameReserve(s, t, f);
    var s1, t1 := Reserve(s).0, Reserve(t).0;
    Shape(s1);
    Shape(t1);
    if Reserve(s).1 {
      assert Alike(Handles, s1, t1, f) && Alike(Handles, s, t, f);
      if IsEvent(s, e) {
        Counterpart(s1, t1, f, e);
        if s1.attached[e] {
          SameSet(s1, t1, f, e, ms);
        }
      } else {
        ReserveAdds(s, e);
        ReserveAdds(t, e');
      }
    }
  }

  /** A slot reserved is no event. */
  lemma ReserveAdds(s: State, e: nat)
    requires Whole(s) && e >= |s.v.role|
    ensures !IsEvent(Reserve(s).0, e)
  {
    if s.evFree == NULL && CanAlloc(s) {
      FreeEmptyIff(s);
      AllocKeeps(s);
    }
  }

  /** An event is marked and joins the ready list. */
  lemma SameEnqueue(s: State, t: State, f: map<nat, nat>, e: nat, fl: Flags)
    requires Whole(s) && Whole(t) && Same(s, t, f) && IsEvent(s, e) && e in f && IsEvent(t, f[e])
    requires s.mem.Sized(|s.v.role|) && e < |s.v.role| == |s.flags| == |s.attached|
    requires t.mem.Sized(|t.v.role|) && f[e] < |t.v.role| == |t.flags| == |t.attached|
    ensures Same(Enqueue(s, e, fl), Enqueue(t, f[e], fl), f)
  {
    var s', t' := Enqueue(s, e, fl), Enqueue(t, f[e], fl);
    assert Alike(Numbers, s, t, f);
    SameFlags(s, t, s', t', f, e, fl);
  }

  lemma SameFlags(s: State, t: State, s': State, t': State, f: map<nat, nat>, e: nat, fl: Flags)
    requires Inv(s) && Inv(t) && Same(s, t, f) && e in f && e < |s.flags| && f[e] < |t.flags|
    requires s'.flags == s.flags[e := fl] && t'.flags == t.flags[f[e] := fl]
    requires s'.attached == s.attached && t'.attached == t.attached
    requires Steady(s, s') && Steady(t, t') && FiguresOf(s') == FiguresOf(t')
    ensures Same(s', t', f)
  {
    assert Alike(Handles, s, t, f) && Alike(Marks, s, t, f);
    forall x | x in f
      ensures BitsOf(s', x) == BitsOf(t', f[x])
    {
      assert IsEvent(s, x) && IsEvent(t, f[x]);
      Counterpart(s, t, f, x);
      assert x == e <==> f[x] == f[e];
    }
    SameSteady(s, t, s', t', f);
  }

  lemma SameActivate(s: State, t: State, f: map<nat, nat>, e: nat)
    requires Whole(s) && Whole(t) && Same(s, t, f) && IsEvent(s, e) && e < |s.attached| && s.attached[e]
    ensures e in f && IsEvent(t, f[e]) && f[e] < |t.attached| && t.attached[f[e]]
    ensures Same(Activate(s, e), Activate(t, f[e]), f)
  {
    Counterpart(s, t, f, e);
    if s.flags[e].active {
      SameAgain(s, t, f, e, s.flags[e].(readRes := true));
    } else {
      SameFirst(s, t, f, e);
    }
  }

  lemma SameFirst(s: State, t: State, f: map<nat, nat>, e: nat)
    requires Whole(s) && Whole(t) && Same(s, t, f) && IsEvent(s, e) && e in f && IsEvent(t, f[e])
    requires e < |s.flags| == |s.attached| && s.attached[e] && !s.flags[e].active
    requires f[e] < |t.flags| == |t.attached| && t.attached[f[e]] && t.flags[f[e]] == s.flags[e]
    ensures Same(Activate(s, e), Activate(t, f[e]), f)
  {
    Shape(s);
    Shape(t);
    var fl := s.flags[e].(readRes := true);
    ActivateFirst(s, e);
    ActivateFirst(t, f[e]);
    SameEnqueue(s, t, f, e, fl.(active := true));
    SameActivated(Enqueue(s, e, fl.(active := true)), Enqueue(t, f[e], fl.(active := true)), f, e, fl);
  }

  /** An event ready already gets another result flag. */
  lemma SameAgain(s: State, t: State, f: map<nat, nat>, e: nat, fl: Flags)
    requires Inv(s) && Inv(t) && Same(s, t, f) && e in f && e < |s.flags| && f[e] < |t.flags|
    ensures Same(s.(flags := s.flags[e := fl]), t.(flags := t.flags[f[e] := fl]), f)
  {
    assert Alike(Numbers, s, t, f);
    SameFlags(s, t, s.(flags := s.flags[e := fl]), t.(flags := t.flags[f[e] := fl]), f, e, fl);
  }

  lemma SameActivated(s1: State, t1: State, f: map<nat, nat>, e: nat, fl: Flags)
    requires Whole(s1) && Whole(t1) && Same(s1, t1, f) && IsEvent(s1, e) && e in f && IsEvent(t1, f[e])
    requires e < |s1.attached| && s1.attached[e] && f[e] < |t1.attached| && t1.attached[f[e]]
    requires e < |s1.flags| && s1.flags[e].active
    ensures s1.mem.Sized(|s1.v.role|) && t1.mem.Sized(|t1.v.role|)
    ensures Same(Reacted(s1, e, fl), Reacted(t1, f[e], fl), f)
  {
    SameQueue(s1, t1, f, e);
    if fl.oneshot {
      SameEvqDel(s1, t1, f, e);
    } else if s1.mem.w4[e] != NULL && !fl.manual {
      SameReset(s1, t1, f, e);
    }
  }

  lemma SameCancel(s: State, t: State, f: map<nat, nat>, e: nat)
    requires Whole(s) && Whole(t) && Same(s, t, f) && IsEvent(s, e)
    ensures e in f && IsEvent(t, f[e]) && Same(Cancel(s, e), Cancel(t, f[e]), f)
  {
    Counterpart(s, t, f, e);
    Shape(s);
    Shape(t);
    if s.attached[e] && !s.flags[e].active {
      SameEnqueue(s, t, f, e, s.flags[e].(active := true, oneshot := true));
    }
  }

  lemma SyncQuiet(s: State, co: nat)
    requires Whole(s) && CanAlloc(s)
    ensures Quiet(s, Do(s, SyncOp(co)))
    ensures FiguresOf(Do(s, SyncOp(co))) == FiguresOf(Alloc(s).0).(pending := |s.v.sync| + 1)
  {
    AllocKeeps(s);
    AllocQuiet(s);
    var (s1, p) := Alloc(s);
    PushQuiet(s1, p, co);
    QuietTwice(s, s1, PushOp(s1, p, co));
  }

  lemma PushQuiet(s: State, p: nat, co: nat)
    requires Whole(s) && IsTaken(s, p) && s.mem.Sized(|s.v.role|)
    ensures Quiet(s, PushOp(s, p, co))
    ensures FiguresOf(PushOp(s, p, co)) == FiguresOf(s).(pending := |s.v.sync| + 1)
  {
  }

  lemma QuietTwice(s: State, s1: State, s2: State)
    requires Quiet(s, s1) && Quiet(s1, s2)
    ensures Quiet(s, s2)
  {
    forall e: nat
      ensures IsEvent(s2, e) <==> IsEvent(s, e)
      ensures IsEvent(s, e) ==> DueOf(s2, e) == DueOf(s, e) && BitsOf(s2, e) == BitsOf(s, e)
    {
      assert IsEvent(s2, e) <==> IsEvent(s1, e);
      assert IsEvent(s1, e) <==> IsEvent(s, e);
      assert IsEvent(s, e) ==> DueOf(s1, e) == DueOf(s, e) && BitsOf(s1, e) == BitsOf(s, e);
    }
  }

  lemma SameSync(s: State, t: State, f: map<nat, nat>, co: nat)
    requires Whole(s) && Whole(t) && Same(s, t, f)
    ensures Same(Do(s, SyncOp(co)), Do(t, SyncOp(co)), f)
  {
    FreeAlike(s, t, f);
    LengthAlike(s, t, f);
    if CanAlloc(s) {
      SameAlloc(s, t, f);
      assert Alike(Numbers, Alloc(s).0, Alloc(t).0, f);
      SyncQuiet(s, co);
      SyncQuiet(t, co);
      SameQuiet(s, t, Do(s, SyncOp(co)), Do(t, SyncOp(co)), f);
    }
  }

  // ---------------------------------------------------------------- levq_sync_process

  /** The events made in the course of the loop. */
  ghost function SyncMade(s: State, rest: seq<nat>, calls: seq<Called>): seq<nat>
    requires Whole(s) && Held(s, rest)
    decreases |rest|
  {
    if rest == [] then []
    else
      ReleaseHeld(s, rest);
      var s1 := Release(s, rest[0]);
      match FirstCall(calls)
      case Cancelled => SyncMade(s1, rest[1..], OtherCalls(calls))
      case Fails => []
      case Adds(a) =>
        AddHeld(s1, rest[1..], a);
        AddMade(s1, a)
        + if Raises(AddIf(s1, a).1) then [] else SyncMade(AddIf(s1, a).0, rest[1..], OtherCalls(calls))
  }

  lemma {:induction false} GrownOn(f: map<nat, nat>, a: seq<nat>, b: seq<nat>, c: seq<nat>, d: seq<nat>)
    requires |a| == |b| && |c| == |d| && NewOnes(f, a, b) && NewOnes(Grown(f, a, b), c, d)
    ensures NewOnes(f, a + c, b + d) && Grown(f, a + c, b + d) == Grown(Grown(f, a, b), c, d)
    decreases |a|
  {
    if a == [] {
      assert a + c == c && b + d == d;
    } else {
      assert (a + c)[1..] == a[1..] + c && (b + d)[1..] == b[1..] + d;
      GrownOn(f[a[0] := b[0]], a[1..], b[1..], c, d);
    }
  }

  /** The loop over the detached operations makes counterparts, and is cut short at the same one. */
  lemma {:induction false} SameSyncFrom(s: State, t: State, f: map<nat, nat>, rest: seq<nat>, rest': seq<nat>, calls: seq<Called>)
      returns (g: map<nat, nat>)
    requires Whole(s) && Whole(t) && Same(s, t, f) && Held(s, rest) && Held(t, rest') && |rest'| == |rest|
    ensures Same(SyncFrom(s, rest, calls), SyncFrom(t, rest', calls), g)
    ensures |SyncMade(s, rest, calls)| == |SyncMade(t, rest', calls)|
    ensures NewOnes(f, SyncMade(s, rest, calls), SyncMade(t, rest', calls))
    ensures g == Grown(f, SyncMade(s, rest, calls), SyncMade(t, rest', calls))
    decreases |rest|, 0
  {
    g := f;
    if rest != [] {
      ReleaseHeld(s, rest);
      ReleaseHeld(t, rest');
      SameRelease(s, t, f, rest[0], rest'[0]);
      var s1, t1 := Release(s, rest[0]), Release(t, rest'[0]);
      match FirstCall(calls) {
        case Cancelled => g := SameSyncFrom(s1, t1, f, rest[1..], rest'[1..], OtherCalls(calls));
        case Fails =>
        case Adds(a) => g := SameSyncAdd(s1, t1, f, rest[1..], rest'[1..], a, OtherCalls(calls));
      }
    }
  }

  /** The same once the first operation has been freed. */
  lemma SameSyncAdd(s: State, t: State, f: map<nat, nat>, rest: seq<nat>, rest': seq<nat>, a: Request, calls: seq<Called>)
      returns (g: map<nat, nat>)
    requires Whole(s) && Whole(t) && Same(s, t, f) && Held(s, rest) && Held(t, rest') && |rest'| == |rest|
    ensures Held(AddIf(s, a).0, rest) && Held(AddIf(t, a).0, rest')
    ensures Raises(AddIf(s, a).1) == Raises(AddIf(t, a).1)
    ensures var raised := Raises(AddIf(s, a).1);
            var s', t' := AddIf(s, a).0, AddIf(t, a).0;
            var made := AddMade(s, a) + if raised then [] else SyncMade(s', rest, calls);
            var made' := AddMade(t, a) + if raised then [] else SyncMade(t', rest', calls);
            && Same(if raised then s' else SyncFrom(s', rest, calls), if raised then t' else SyncFrom(t', rest', calls), g)
            && |made| == |made'| && NewOnes(f, made, made') && g == Grown(f, made, made')
    decreases |rest|, 1
  {
    AddHeld(s, rest, a);
    AddHeld(t, rest', a);
    var h := SameAddEvent(s, t, f, a);
    g := h;
    if Raises(AddIf(s, a).1) {
      assert AddMade(s, a) + [] == AddMade(s, a) && AddMade(t, a) + [] == AddMade(t, a);
    } else {
      var s', t' := AddIf(s, a).0, AddIf(t, a).0;
      g := SameSyncFrom(s', t', h, rest, rest', calls);
      GrownOn(f, AddMade(s, a), AddMade(t, a), SyncMade(s', rest, calls), SyncMade(t', rest', calls));
    }
  }

  lemma DetachQuiet(s: State)
    requires Whole(s)
    ensures Quiet(s, DetachOps(s)) && FiguresOf(DetachOps(s)) == FiguresOf(s).(pending := 0)
  {
    assert Holds(Slots, s);
    forall e: nat
      ensures IsEvent(DetachOps(s), e) <==> IsEvent(s, e)
    {
      if e < |s.v.role| { assert SlotOk(e, s.v, s.mem.w4, s.flags, s.attached, s.evId); }
    }
  }

  lemma SameSyncProcess(s: State, t: State, f: map<nat, nat>, calls: seq<Called>) returns (g: map<nat, nat>)
    requires Whole(s) && Whole(t) && Same(s, t, f)
    ensures Same(SyncProcess(s, calls), SyncProcess(t, calls), g)
    ensures Follows(g, f, Made(s, SyncProcessOp(calls)), Made(t, SyncProcessOp(calls)))
  {
    LengthAlike(s, t, f);
    g := f;
    if s.v.sync != [] {
      assert Alike(Numbers, s, t, f);
      DetachOpsKeeps(s);
      DetachOpsKeeps(t);
      DetachQuiet(s);
      DetachQuiet(t);
      SameQuiet(s, t, DetachOps(s), DetachOps(t), f);
      g := SameSyncFrom(DetachOps(s), DetachOps(t), f, s.v.sync, t.v.sync, calls);
    }
  }

  // ---------------------------------------------------------------- the clock, timeout_process

  lemma SameClock(s: State, t: State, f: map<nat, nat>, now: int)
    requires Whole(s) && Whole(t) && Same(s, t, f)
    ensures Same(Do(s, ClockOp(now)), Do(t, ClockOp(now)), f)
  {
    assert Alike(Numbers, s, t, f);
    if s.now <= now {
      ClockQuiet(s, now);
      ClockQuiet(t, now);
      SameQuiet(s, t, s.(now := now), t.(now := now), f);
    }
  }

  lemma ClockQuiet(s: State, now: int)
    ensures Quiet(s, s.(now := now)) && FiguresOf(s.(now := now)) == FiguresOf(s).(now := now)
  {
  }

  lemma CalmAlike(s: State, t: State, f: map<nat, nat>)
    requires Whole(s) && Whole(t) && Same(s, t, f)
    ensures AllCalm(s) <==> AllCalm(t)
  {
    assert Alike(Handles, s, t, f);
    InPartAllocated(s);
    InPartAllocated(t);
    forall e | e in f
      ensures InPart(s, e) <==> InPart(t, f[e])
      ensures e in s.v.ready <==> f[e] in t.v.ready
    {
      InPartAlike(s, t, f, e);
      EventAlike(s, t, f, e);
    }
    if !AllCalm(s) {
      var e: nat :| InPart(s, e) && e in s.v.ready;
      assert InPart(t, f[e]);
    }
    if !AllCalm(t) {
      var x: nat :| InPart(t, x) && x in t.v.ready;
      var e :| e in f && f[e] == x;
      assert InPart(s, e);
    }
  }

  lemma InPartAlike(s: State, t: State, f: map<nat, nat>, e: nat)
    requires Same(s, t, f) && e in f
    ensures InPart(s, e) <==> InPart(t, f[e])
  {
    assert Alike(Parts, s, t, f) && Alike(Handles, s, t, f);
    if InPart(s, e) {
      var ms :| ms in s.v.q.part && e in s.v.q.part[ms];
      assert t.v.q.part[ms][IndexOf(s.v.q.part[ms], e)] == f[e];
    }
    if InPart(t, f[e]) {
      var ms :| ms in t.v.q.part && f[e] in t.v.q.part[ms];
      PartBack(s.v.q.part, f, t.v.q.part, ms, e);
    }
  }

  // ---------------------------------------------------------------- every operation

  /** One operation; draining works off the whole ready list. */
  ghost function Next(s: State, op: Op): (r: State)
    requires Whole(s)
    ensures Whole(r)
  {
    if op.DrainOp? then HandleAll(s) else Do(s, op)
  }

  /** The events an operation makes. */
  ghost function Made(s: State, op: Op): seq<nat>
    requires Whole(s)
  {
    match op
    case AddOp(a) => AddMade(s, a)
    case SyncProcessOp(calls) =>
      if s.v.sync == [] then []
      else
        DetachOpsKeeps(s);
        SyncMade(DetachOps(s), s.v.sync, calls)
    case _ => []
  }

  /** The same operation on counterparts. */
  ghost predicate OpsAlike(s: State, t: State, f: map<nat, nat>, op: Op, op': Op) {
    match op
    case DeleteOp(e) => op'.DeleteOp? && Twins(s, t, f, e, op'.e)
    case TimeoutOp(e, ms) => op'.TimeoutOp? && op'.ms == ms && Twins(s, t, f, e, op'.e)
    case ActivateOp(e) => op'.ActivateOp? && Twins(s, t, f, e, op'.e)
    case CancelOp(e) => op'.CancelOp? && Twins(s, t, f, e, op'.e)
    case _ => op' == op
  }

  /** Every operation keeps two queues alike. */
  lemma SameNext(s: State, t: State, f: map<nat, nat>, op: Op, op': Op) returns (g: map<nat, nat>)
    requires Whole(s) && Whole(t) && Same(s, t, f) && OpsAlike(s, t, f, op, op')
    ensures Same(Next(s, op), Next(t, op'), g) && Follows(g, f, Made(s, op), Made(t, op'))
  {
    Shape(s);
    Shape(t);
    LengthAlike(s, t, f);
    assert Alike(Handles, s, t, f);
    g := f;
    match op {
      case AddOp(a) => g := SameAddEvent(s, t, f, a);
      case DeleteOp(e) =>
        if IsEvent(s, e) {
          SameDelete(s, t, f, e);
          g := AfterDetach(s, f, e);
        }
      case TimeoutOp(e, ms) => SameTimeoutOp(s, t, f, e, op'.e, ms);
      case ActivateOp(e) =>
        if IsEvent(s, e) {
          Counterpart(s, t, f, e);
          if s.attached[e] { SameActivate(s, t, f, e); }
        }
      case CancelOp(e) => if IsEvent(s, e) { SameCancel(s, t, f, e); }
      case DrainOp =>
        SameHandle(s, t, f);
        g := Rest(f, Gone(s));
      case ProcessOp =>
        CalmAlike(s, t, f);
        if AllCalm(s) { SameProcess(s, t, f); }
      case ClockOp(now) => SameClock(s, t, f, now);
      case SyncOp(co) => SameSync(s, t, f, co);
      case SyncProcessOp(calls) => g := SameSyncProcess(s, t, f, calls);
    }
  }

  lemma EventAlike(s: State, t: State, f: map<nat, nat>, e: nat)
    requires Whole(s) && Whole(t) && Same(s, t, f) && e in f
    ensures BitsOf(s, e) == BitsOf(t, f[e]) && (e in s.v.ready <==> f[e] in t.v.ready)
    ensures InPart(s, e) ==> DueOf(s, e) == DueOf(t, f[e])
  {
    assert Alike(Handles, s, t, f) && Alike(Times, s, t, f);
    Counterpart(s, t, f, e);
    ReadyIffActive(s, e);
    ReadyIffActive(t, f[e]);
  }
}
