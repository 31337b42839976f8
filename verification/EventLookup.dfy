/**
 Finding the queue of a timeout through the map or along the sorted list makes no difference.  The two
 ways keep the queue list in a different order, so events become ready, and slots free, in a different
 order, and the same event has another slot: what is compared are the events up to a renaming of slots.
 This module is about single operations.
 */
module EventLookup {
  import opened Lists
  import opened TimeoutLists
  import opened TimeoutState
  import opened EventSlots
  import opened EventState
  import opened EventProcess
  import opened EventExpiry
  import opened EventIds
  import opened EventOps
  import opened EventCalls
  import opened EventRuns

  /** The numbers of a state; free slots and queues are counted together. */
  datatype Figures = Figures(slots: nat, tally: nat, pending: nat, now: int, nbufs: nat, bufIndex: nat, bufNevents: nat)

  ghost function Tally(s: State): nat { |s.v.free| + |s.v.q.part| }

  ghost function FiguresOf(s: State): Figures {
    Figures(|s.v.role|, Tally(s), |s.v.sync|, s.now, s.nbufs, s.bufIndex, s.bufNevents)
  }

  /** Flags of an event, and whether it belongs to the queue. */
  function BitsOf(s: State, e: nat): (Flags, bool) {
    if e < |s.flags| && e < |s.attached| then (s.flags[e], s.attached[e]) else (NO_FLAGS, false)
  }

  function DueOf(s: State, e: nat): int {
    if e < |s.mem.due| then s.mem.due[e] else 0
  }

  ghost predicate OneToOne(f: map<nat, nat>) {
    forall a, b {:trigger f[a], f[b]} :: a in f && b in f && f[a] == f[b] ==> a == b
  }

  ghost predicate Renamed(es: seq<nat>, f: map<nat, nat>, es': seq<nat>) {
    |es| == |es'| && forall i :: 0 <= i < |es| ==> es[i] in f && f[es[i]] == es'[i]
  }

  ghost predicate PartsRenamed(part: map<int, seq<nat>>, f: map<nat, nat>, part': map<int, seq<nat>>) {
    && part'.Keys == part.Keys
    && forall ms {:trigger part[ms]} {:trigger part'[ms]} :: ms in part ==> Renamed(part[ms], f, part'[ms])
  }

  /** `f` takes the events of `s` to those of `t`. */
  ghost predicate Matches(s: State, t: State, f: map<nat, nat>) {
    && OneToOne(f)
    && (forall e: nat {:trigger IsEvent(s, e)} {:trigger e in f} :: IsEvent(s, e) <==> e in f)
    && (forall e {:trigger f[e]} :: e in f ==> IsEvent(t, f[e]))
    && (forall x: nat {:trigger IsEvent(t, x)} :: IsEvent(t, x) ==> x in f.Values)
  }

  datatype Likeness = Numbers | Handles | Marks | Parts | Times

  /** One respect in which `s` and `t` are alike. */
  ghost predicate Alike(l: Likeness, s: State, t: State, f: map<nat, nat>) {
    match l
    case Numbers => FiguresOf(s) == FiguresOf(t)
    case Handles => Matches(s, t, f)
    case Marks => forall e {:trigger BitsOf(s, e)} {:trigger f[e]} :: e in f ==> BitsOf(s, e) == BitsOf(t, f[e])
    case Parts => PartsRenamed(s.v.q.part, f, t.v.q.part)
    case Times => forall e {:trigger InPart(s, e)} :: e in f && InPart(s, e) ==> DueOf(s, e) == DueOf(t, f[e])
  }

  /** Alike up to the renaming `f` of events. */
  ghost predicate Same(s: State, t: State, f: map<nat, nat>) {
    forall l {:trigger Alike(l, s, t, f)} :: Alike(l, s, t, f)
  }

  lemma SameIf(s: State, t: State, f: map<nat, nat>)
    requires Alike(Numbers, s, t, f) && Alike(Handles, s, t, f) && Alike(Marks, s, t, f)
    requires Alike(Parts, s, t, f) && Alike(Times, s, t, f)
    ensures Same(s, t, f)
  {
    forall l
      ensures Alike(l, s, t, f)
    {
      match l {
        case Numbers =>
        case Handles =>
        case Marks =>
        case Parts =>
        case Times =>
      }
    }
  }

  /** An event and its counterpart. */
  lemma Counterpart(s: State, t: State, f: map<nat, nat>, e: nat)
    requires Inv(s) && Inv(t) && Same(s, t, f) && IsEvent(s, e)
    ensures e in f && IsEvent(t, f[e]) && BitsOf(s, e) == BitsOf(t, f[e])
    ensures e < |s.flags| == |s.attached| && f[e] < |t.flags| == |t.attached|
    ensures s.flags[e] == t.flags[f[e]] && s.attached[e] == t.attached[f[e]]
  {
    assert Alike(Handles, s, t, f) && Alike(Marks, s, t, f);
    Shape(s);
    Shape(t);
  }

  /** Slots in a queue are events. */
  lemma InPartAllocated(s: State)
    requires Inv(s)
    ensures s.mem.Sized(|s.v.role|)
    ensures forall e: nat {:trigger InPart(s, e)} :: InPart(s, e) ==> e < |s.mem.due| && IsEvent(s, e)
  {
    Shape(s);
    forall e: nat | InPart(s, e)
      ensures e < |s.mem.due| && IsEvent(s, e)
    {
      var ms :| ms in s.v.q.part && e in s.v.q.part[ms];
      EventsAllocated(s, ms);
      assert Holds(Slots, s);
      assert SlotOk(e, s.v, s.mem.w4, s.flags, s.attached, s.evId);
    }
  }

  // ---------------------------------------------------------------- renamed queues

  lemma RenamedIndex(es: seq<nat>, f: map<nat, nat>, es': seq<nat>, e: nat)
    requires Renamed(es, f, es') && Distinct(es') && e in es
    ensures e in f && f[e] in es' && IndexOf(es', f[e]) == IndexOf(es, e)
  {
    var k := IndexOf(es, e);
    DropAt(es', k);
  }

  lemma RenamedDrop(es: seq<nat>, f: map<nat, nat>, es': seq<nat>, e: nat)
    requires Renamed(es, f, es') && Distinct(es') && e in es
    ensures e in f && f[e] in es' && Renamed(Drop(es, e), f, Drop(es', f[e]))
  {
    RenamedIndex(es, f, es', e);
    var k := IndexOf(es, e);
    WithoutRenamed(es, f, es', k);
  }

  lemma WithoutRenamed(es: seq<nat>, f: map<nat, nat>, es': seq<nat>, k: nat)
    requires Renamed(es, f, es') && k < |es|
    ensures Renamed(Without(es, k), f, Without(es', k))
  {
  }

  lemma DelRenamed(part: map<int, seq<nat>>, f: map<nat, nat>, part': map<int, seq<nat>>, ms: int, e: nat)
    requires PartsRenamed(part, f, part') && ms in part && e in part[ms] && Distinct(part'[ms])
    ensures e in f && f[e] in part'[ms] && PartsRenamed(PartDel(part, ms, e), f, PartDel(part', ms, f[e]))
  {
    RenamedDrop(part[ms], f, part'[ms], e);
  }

  lemma AddRenamed(part: map<int, seq<nat>>, f: map<nat, nat>, part': map<int, seq<nat>>, ms: int, e: nat)
    requires PartsRenamed(part, f, part') && e in f
    ensures PartsRenamed(PartAdd(part, ms, e), f, PartAdd(part', ms, f[e]))
  {
    assert Renamed(EventsAt(part, ms), f, EventsAt(part', ms));
  }

  lemma ResetRenamed(part: map<int, seq<nat>>, f: map<nat, nat>, part': map<int, seq<nat>>, ms: int, e: nat)
    requires PartsRenamed(part, f, part') && ms in part && e in part[ms] && Distinct(part'[ms])
    ensures e in f && f[e] in part'[ms] && PartsRenamed(PartReset(part, ms, e), f, PartReset(part', ms, f[e]))
  {
    RenamedDrop(part[ms], f, part'[ms], e);
  }

  // ---------------------------------------------------------------- what a step leaves alone

  /** No event is in a queue that was in none before, but for `e`. */
  ghost predicate FewMore(s: State, s': State, e: int) {
    forall x: nat {:trigger InPart(s', x)} :: InPart(s', x) ==> InPart(s, x) || x == e
  }

  lemma LeftMembers(s: State, s': State, ms: int, e: nat)
    requires ms in s.v.q.part && e in s.v.q.part[ms] && Distinct(s.v.q.part[ms])
    requires s'.v.q.part == PartDel(s.v.q.part, ms, e)
    ensures FewMore(s, s', NULL)
  {
    WithoutMembers(s.v.q.part[ms], IndexOf(s.v.q.part[ms], e));
    forall x: nat | InPart(s', x)
      ensures InPart(s, x)
    {
      var m :| m in s'.v.q.part && x in s'.v.q.part[m];
      assert m in s.v.q.part && x in s.v.q.part[m];
    }
  }

  lemma AddMembers(s: State, s': State, ms: int, e: nat)
    requires s'.v.q.part == PartAdd(s.v.q.part, ms, e)
    ensures FewMore(s, s', e)
  {
    forall x: nat | InPart(s', x)
      ensures InPart(s, x) || x == e
    {
      var m :| m in s'.v.q.part && x in s'.v.q.part[m];
    }
  }

  lemma ResetMembers(s: State, s': State, ms: int, e: nat)
    requires ms in s.v.q.part && e in s.v.q.part[ms] && Distinct(s.v.q.part[ms])
    requires s'.v.q.part == PartReset(s.v.q.part, ms, e)
    ensures FewMore(s, s', NULL)
  {
    WithoutMembers(s.v.q.part[ms], IndexOf(s.v.q.part[ms], e));
    forall x: nat | InPart(s', x)
      ensures InPart(s, x)
    {
      var m :| m in s'.v.q.part && x in s'.v.q.part[m];
      assert m in s.v.q.part && x in s.v.q.part[m];
    }
  }

  /** The times after a step that stores at most one of them. */
  ghost predicate OneTime(s: State, s': State, e: int, at: int) {
    && |s'.mem.due| >= |s.mem.due|
    && forall x: nat {:trigger DueOf(s', x)} :: x < |s.mem.due| ==> DueOf(s', x) == if x == e then at else DueOf(s, x)
  }

  /** `e` and `e'` are counterparts, or both no event. */
  ghost predicate Pair(f: map<nat, nat>, e: int, e': int) {
    if e >= 0 then e in f && f[e] == e' else e' < 0
  }

  /** A step on the timeouts, done on both sides. */
  lemma SameTimeouts(s: State, t: State, s': State, t': State, f: map<nat, nat>, e: int, e': int, at: int)
    requires Inv(s) && Inv(t) && Same(s, t, f) && TimeoutsOnly(s, s') && TimeoutsOnly(t, t') && Pair(f, e, e')
    requires FiguresOf(s') == FiguresOf(t') && Alike(Parts, s', t', f)
    requires FewMore(s, s', e) && OneTime(s, s', e, at) && OneTime(t, t', e', at)
    ensures Same(s', t', f)
  {
    assert Alike(Handles, s, t, f) && Alike(Marks, s, t, f) && Alike(Times, s, t, f);
    Shape(s);
    Shape(t);
    forall x | x in f && InPart(s', x)
      ensures DueOf(s', x) == DueOf(t', f[x])
    {
      assert IsEvent(s, x) && IsEvent(t, f[x]);
      if x != e {
        assert InPart(s, x);
        assert f[x] != e';
      }
    }
    forall x: nat
      ensures IsEvent(s', x) <==> IsEvent(s, x)
      ensures IsEvent(t', x) <==> IsEvent(t, x)
    {
    }
    SameIf(s', t', f);
  }

  // ---------------------------------------------------------------- timeouts

  /** An event waits in the same queue, at the same place, on both sides. */
  lemma SameQueue(s: State, t: State, f: map<nat, nat>, e: nat)
    requires Whole(s) && Whole(t) && Same(s, t, f) && IsEvent(s, e)
    ensures e in f && IsEvent(t, f[e]) && s.mem.Sized(|s.v.role|) && t.mem.Sized(|t.v.role|)
    ensures s.mem.w4[e] == NULL <==> t.mem.w4[f[e]] == NULL
    ensures s.mem.w4[e] != NULL ==>
              var ms := TimeoutOf(s.mem, e);
              && TimeoutOf(t.mem, f[e]) == ms && ms in s.v.q.part && e in s.v.q.part[ms] && Distinct(s.v.q.part[ms])
              && ms in t.v.q.part && Distinct(t.v.q.part[ms]) && (Alone(s, e) <==> Alone(t, f[e]))
  {
    Counterpart(s, t, f, e);
    Shape(s);
    Shape(t);
    assert Alike(Parts, s, t, f) && Alike(Handles, s, t, f);
    if s.mem.w4[e] != NULL {
      var ms, k := Queued(s, e);
      assert t.v.q.part[ms][k] == f[e];
      if t.mem.w4[f[e]] == NULL {
        NotQueued(t, f[e]);
      } else {
        var ms', k' := Queued(t, f[e]);
      }
    } else if t.mem.w4[f[e]] != NULL {
      var ms', k' := Queued(t, f[e]);
      PartBack(s.v.q.part, f, t.v.q.part, ms', e);
      NotQueued(s, e);
    }
  }

  lemma PartBack(part: map<int, seq<nat>>, f: map<nat, nat>, part': map<int, seq<nat>>, ms: int, e: nat)
    requires PartsRenamed(part, f, part') && OneToOne(f) && e in f && ms in part' && f[e] in part'[ms]
    ensures ms in part && e in part[ms]
  {
    var k := IndexOf(part'[ms], f[e]);
    assert f[part[ms][k]] == f[e];
  }

  ghost predicate Alone(s: State, e: nat)
    requires e < |s.mem.w2| && e < |s.mem.w3|
  {
    s.mem.w2[e] == NULL && s.mem.w3[e] == NULL
  }

  /** A queue that goes becomes a free slot. */
  lemma DelTally(s: State, e: nat)
    requires Whole(s) && IsEvent(s, e) && s.mem.Sized(|s.v.role|) && s.mem.w4[e] != NULL
    ensures Tally(DelTimeout(s, e)) == Tally(s)
    ensures TimeoutOf(s.mem, e) in s.v.q.part && e in s.v.q.part[TimeoutOf(s.mem, e)]
    ensures DelTimeout(s, e).v.q.part == PartDel(s.v.q.part, TimeoutOf(s.mem, e), e)
    ensures OneTime(s, DelTimeout(s, e), NULL, 0)
  {
    if Alone(s, e) {
      DropQueueKeeps(s, e);
    } else {
      LeaveQueueKeeps(s, e);
    }
  }

  lemma SameDel(s: State, t: State, f: map<nat, nat>, e: nat)
    requires Whole(s) && Whole(t) && Same(s, t, f) && IsEvent(s, e)
    ensures e in f && IsEvent(t, f[e]) && Same(DelTimeout(s, e), DelTimeout(t, f[e]), f)
  {
    SameQueue(s, t, f, e);
    if s.mem.w4[e] != NULL {
      assert Alike(Numbers, s, t, f) && Alike(Parts, s, t, f);
      DelTally(s, e);
      DelTally(t, f[e]);
      DelRenamed(s.v.q.part, f, t.v.q.part, TimeoutOf(s.mem, e), e);
      LeftMembers(s, DelTimeout(s, e), TimeoutOf(s.mem, e), e);
      SameTimeouts(s, t, DelTimeout(s, e), DelTimeout(t, f[e]), f, NULL, NULL, 0);
    }
  }

  /** A new queue takes a free slot. */
  lemma AddTally(s: State, e: nat, ms: int)
    requires Whole(s) && IsEvent(s, e) && s.mem.Sized(|s.v.role|) && s.mem.w4[e] == NULL
    requires e < |s.attached| && s.attached[e] && AddTimeout(s, e, ms).1
    ensures Tally(AddTimeout(s, e, ms).0) == Tally(s)
    ensures OneTime(s, AddTimeout(s, e, ms).0, e, s.now + ms)
  {
    if ms in s.v.q.part {
      JoinQueueKeeps(s, e, ms);
    } else {
      OpenQueueKeeps(s, e, ms);
    }
  }

  lemma SameAdd(s: State, t: State, f: map<nat, nat>, e: nat, ms: int)
    requires Whole(s) && Whole(t) && Same(s, t, f) && IsEvent(s, e) && e in f && IsEvent(t, f[e])
    requires s.mem.Sized(|s.v.role|) && s.mem.w4[e] == NULL && t.mem.Sized(|t.v.role|) && t.mem.w4[f[e]] == NULL
    requires e < |s.attached| && s.attached[e] && f[e] < |t.attached| && t.attached[f[e]]
    ensures Same(AddTimeout(s, e, ms).0, AddTimeout(t, f[e], ms).0, f)
    ensures AddTimeout(s, e, ms).1 == AddTimeout(t, f[e], ms).1
  {
    assert Alike(Numbers, s, t, f) && Alike(Parts, s, t, f);
    FreeAlike(s, t, f);
    if AddTimeout(s, e, ms).1 {
      AddTally(s, e, ms);
      AddTally(t, f[e], ms);
      AddRenamed(s.v.q.part, f, t.v.q.part, ms, e);
      AddMembers(s, AddTimeout(s, e, ms).0, ms, e);
      SameTimeouts(s, t, AddTimeout(s, e, ms).0, AddTimeout(t, f[e], ms).0, f, e, f[e], s.now + ms);
    }
  }

  /** As many slots are free on both sides. */
  lemma FreeAlike(s: State, t: State, f: map<nat, nat>)
    requires Inv(s) && Inv(t) && Same(s, t, f)
    ensures |s.v.free| == |t.v.free| && |s.v.q.part| == |t.v.q.part|
    ensures s.evFree == NULL <==> t.evFree == NULL
    ensures CanCarve(s) <==> CanCarve(t)
    ensures CanAlloc(s) <==> CanAlloc(t)
  {
    assert Alike(Numbers, s, t, f) && Alike(Parts, s, t, f);
    assert |s.v.q.part| == |s.v.q.part.Keys| && |t.v.q.part| == |t.v.q.part.Keys|;
    FreeEmptyIff(s);
    FreeEmptyIff(t);
  }

  lemma SameReset(s: State, t: State, f: map<nat, nat>, e: nat)
    requires Whole(s) && Whole(t) && Same(s, t, f) && IsEvent(s, e) && e in f && IsEvent(t, f[e])
    requires s.mem.Sized(|s.v.role|) && s.mem.w4[e] != NULL && t.mem.Sized(|t.v.role|) && t.mem.w4[f[e]] != NULL
    ensures Same(ResetTimeout(s, e), ResetTimeout(t, f[e]), f)
  {
    SameQueue(s, t, f, e);
    ResetTally(s, e);
    ResetTally(t, f[e]);
    assert Alike(Numbers, s, t, f) && Alike(Parts, s, t, f);
    var ms := TimeoutOf(s.mem, e);
    ResetRenamed(s.v.q.part, f, t.v.q.part, ms, e);
    ResetMembers(s, ResetTimeout(s, e), ms, e);
    SameTimeouts(s, t, ResetTimeout(s, e), ResetTimeout(t, f[e]), f, e, f[e], s.now + ms);
  }

  lemma ResetTally(s: State, e: nat)
    requires Whole(s) && IsEvent(s, e) && s.mem.Sized(|s.v.role|) && s.mem.w4[e] != NULL
    ensures Tally(ResetTimeout(s, e)) == Tally(s)
    ensures OneTime(s, ResetTimeout(s, e), e, s.now + TimeoutOf(s.mem, e))
  {
    ResetKeeps(s, e);
    var part, part' := s.v.q.part, ResetTimeout(s, e).v.q.part;
    assert part'.Keys == part.Keys;
    assert |part'| == |part'.Keys| && |part| == |part.Keys|;
  }

  /** evq_set_timeout does the same on both sides. */
  lemma SameSet(s: State, t: State, f: map<nat, nat>, e: nat, ms: int)
    requires Whole(s) && Whole(t) && Same(s, t, f) && IsEvent(s, e) && e in f && IsEvent(t, f[e])
    requires e < |s.attached| && s.attached[e] && f[e] < |t.attached| && t.attached[f[e]]
    ensures Same(SetTimeout(s, e, ms).0, SetTimeout(t, f[e], ms).0, f)
    ensures SetTimeout(s, e, ms).1 == SetTimeout(t, f[e], ms).1
  {
    SameQueue(s, t, f, e);
    if s.mem.w4[e] != NULL && TimeoutOf(s.mem, e) == ms {
      SameReset(s, t, f, e);
    } else {
      SameDel(s, t, f, e);
      if ms != TIMEOUT_INFINITE {
        SameAdd(DelTimeout(s, e), DelTimeout(t, f[e]), f, e, ms);
      }
    }
  }

  // ---------------------------------------------------------------- timeout_process

  /** The same events fire, and every queue is turned round in the same way. */
  lemma SameProcess(s: State, t: State, f: map<nat, nat>)
    requires Whole(s) && Whole(t) && Same(s, t, f) && AllCalm(s) && AllCalm(t)
    ensures Same(Process(s), Process(t), f)
  {
    var s', t' := Process(s), Process(t);
    assert Alike(Numbers, s, t, f) && Alike(Handles, s, t, f) && Alike(Parts, s, t, f);
    assert |s'.v.q.part| == |s'.v.q.part.Keys| && |s.v.q.part| == |s.v.q.part.Keys|;
    assert |t'.v.q.part| == |t'.v.q.part.Keys| && |t.v.q.part| == |t.v.q.part.Keys|;
    ProcessParts(s, t, f);
    ProcessBits(s, t, f);
    SameIf(s', t', f);
  }

  lemma ProcessBits(s: State, t: State, f: map<nat, nat>)
    requires Whole(s) && Whole(t) && Same(s, t, f) && AllCalm(s) && AllCalm(t)
    ensures Alike(Handles, Process(s), Process(t), f) && Alike(Marks, Process(s), Process(t), f)
  {
    var s', t' := Process(s), Process(t);
    assert Alike(Handles, s, t, f) && Alike(Marks, s, t, f);
    Shape(s);
    Shape(t);
    ProcessMarks(s);
    ProcessMarks(t);
    ProcessFires(s);
    ProcessFires(t);
    forall e: nat
      ensures IsEvent(s', e) <==> IsEvent(s, e)
      ensures IsEvent(t', e) <==> IsEvent(t, e)
    {
    }
    forall e | e in f
      ensures BitsOf(s', e) == BitsOf(t', f[e])
    {
      Counterpart(s, t, f, e);
      SameExpired(s, t, f, e);
    }
  }

  lemma ProcessParts(s: State, t: State, f: map<nat, nat>)
    requires Whole(s) && Whole(t) && Same(s, t, f) && AllCalm(s) && AllCalm(t)
    ensures Alike(Parts, Process(s), Process(t), f) && Alike(Times, Process(s), Process(t), f)
  {
    var s', t' := Process(s), Process(t);
    forall ms | ms in s'.v.q.part
      ensures ms in t'.v.q.part && Renamed(s'.v.q.part[ms], f, t'.v.q.part[ms])
      ensures forall e :: e in f && e in s'.v.q.part[ms] ==> DueOf(s', e) == DueOf(t', f[e])
    {
      assert ms in s.v.q.part;
      SameFiring(s, t, f, ms);
    }
    assert Alike(Parts, s, t, f);
    assert t'.v.q.part.Keys == s'.v.q.part.Keys;
  }

  lemma SameFiring(s: State, t: State, f: map<nat, nat>, ms: int)
    requires Whole(s) && Whole(t) && Same(s, t, f) && AllCalm(s) && AllCalm(t) && ms in s.v.q.part
    ensures ms in Process(s).v.q.part && ms in Process(t).v.q.part
    ensures Renamed(Process(s).v.q.part[ms], f, Process(t).v.q.part[ms])
    ensures forall e :: e in f && e in Process(s).v.q.part[ms] ==> DueOf(Process(s), e) == DueOf(Process(t), f[e])
  {
    SameBefore(s, t, f, ms);
    ProcessFires(s);
    ProcessFires(t);
    FiredAlike(s, t, f, Process(s), Process(t), ms);
  }

  /** What the events of one queue have in common before they fire. */
  lemma SameBefore(s: State, t: State, f: map<nat, nat>, ms: int)
    requires Whole(s) && Whole(t) && Same(s, t, f) && ms in s.v.q.part
    ensures ms in t.v.q.part && Renamed(s.v.q.part[ms], f, t.v.q.part[ms]) && t.now == s.now
    ensures Distinct(s.v.q.part[ms]) && Within(s.v.q.part[ms], |s.mem.due|) && Within(t.v.q.part[ms], |t.mem.due|)
    ensures forall e :: e in s.v.q.part[ms] ==> DueOf(s, e) == DueOf(t, f[e])
  {
    assert Alike(Numbers, s, t, f) && Alike(Parts, s, t, f) && Alike(Times, s, t, f);
    EventsAllocated(s, ms);
    EventsAllocated(t, ms);
    assert Holds(Contents, s);
    assert OneOk(s.mem, s.v.q, ms, s.now);
    forall e | e in s.v.q.part[ms]
      ensures DueOf(s, e) == DueOf(t, f[e])
    {
      assert InPart(s, e);
    }
  }

  /** As many events of the queue are due on both sides. */
  lemma {:induction false} RipeRenamed(s: State, t: State, f: map<nat, nat>, es: seq<nat>, es': seq<nat>, limit: int)
    requires Renamed(es, f, es') && Within(es, |s.mem.due|) && Within(es', |t.mem.due|)
    requires forall e :: e in es ==> DueOf(s, e) == DueOf(t, f[e])
    ensures Ripe(s.mem.due, es, limit) == Ripe(t.mem.due, es', limit)
    decreases |es|
  {
    if es != [] {
      assert es[0] in es;
      assert DueOf(s, es[0]) == DueOf(t, es'[0]);
      RipeRenamed(s, t, f, es[1..], es'[1..], limit);
    }
  }

  lemma RotateRenamed(es: seq<nat>, f: map<nat, nat>, es': seq<nat>, k: nat)
    requires Renamed(es, f, es') && k <= |es|
    ensures Renamed(es[k..] + es[..k], f, es'[k..] + es'[..k])
  {
  }

  lemma FiredAlike(s: State, t: State, f: map<nat, nat>, s': State, t': State, ms: int)
    requires Sane(s, s', ms) && FiredAt(s, s', ms) && Sane(t, t', ms) && FiredAt(t, t', ms)
    requires Renamed(s.v.q.part[ms], f, t.v.q.part[ms]) && t.now == s.now && Distinct(s.v.q.part[ms])
    requires forall e :: e in s.v.q.part[ms] ==> DueOf(s, e) == DueOf(t, f[e])
    ensures Renamed(s'.v.q.part[ms], f, t'.v.q.part[ms])
    ensures forall e :: e in f && e in s'.v.q.part[ms] ==> DueOf(s', e) == DueOf(t', f[e])
  {
    var es, es' := s.v.q.part[ms], t.v.q.part[ms];
    var k := Ripe(s.mem.due, es, s.now + MIN_TIMEOUT);
    RipeRenamed(s, t, f, es, es', s.now + MIN_TIMEOUT);
    RotateRenamed(es, f, es', k);
    RotateMembers(es, k);
    forall e | e in f && e in s'.v.q.part[ms]
      ensures DueOf(s', e) == DueOf(t', f[e])
    {
      assert e in es;
      FiredTimes(s, t, f, s', t', ms, e);
    }
  }

  lemma FiredTimes(s: State, t: State, f: map<nat, nat>, s': State, t': State, ms: int, e: nat)
    requires Sane(s, s', ms) && FiredAt(s, s', ms) && Sane(t, t', ms) && FiredAt(t, t', ms)
    requires Renamed(s.v.q.part[ms], f, t.v.q.part[ms]) && t.now == s.now && e in s.v.q.part[ms]
    requires e in f && DueOf(s, e) == DueOf(t, f[e])
    ensures DueOf(s', e) == DueOf(t', f[e])
  {
    assert t.v.q.part[ms][IndexOf(s.v.q.part[ms], e)] == f[e];
    assert f[e] in t.v.q.part[ms];
  }

  lemma SameExpired(s: State, t: State, f: map<nat, nat>, e: nat)
    requires Whole(s) && Whole(t) && Same(s, t, f) && e in f
    ensures Expired(s, e) <==> Expired(t, f[e])
  {
    assert Alike(Numbers, s, t, f) && Alike(Parts, s, t, f) && Alike(Times, s, t, f) && Alike(Handles, s, t, f);
    InPartAllocated(s);
    InPartAllocated(t);
    if Expired(s, e) {
      var ms :| ms in s.v.q.part && e in s.v.q.part[ms];
      assert InPart(s, e);
      assert t.v.q.part[ms][IndexOf(s.v.q.part[ms], e)] == f[e];
      assert InPart(t, f[e]);
    }
    if Expired(t, f[e]) {
      var ms :| ms in t.v.q.part && f[e] in t.v.q.part[ms];
      PartBack(s.v.q.part, f, t.v.q.part, ms, e);
      assert InPart(s, e) && InPart(t, f[e]);
    }
  }

  // ---------------------------------------------------------------- slots

  /** A step that leaves the events of `s`, their queues and their times. */
  ghost predicate Steady(s: State, s': State) {
    && s'.v.q.part == s.v.q.part
    && (forall e: nat {:trigger IsEvent(s', e)} :: IsEvent(s', e) <==> IsEvent(s, e))
    && (forall e: nat {:trigger DueOf(s', e)} :: IsEvent(s, e) ==> DueOf(s', e) == DueOf(s, e))
  }

  /** And their flags. */
  ghost predicate Quiet(s: State, s': State) {
    Steady(s, s') && forall e: nat {:trigger BitsOf(s', e)} :: IsEvent(s, e) ==> BitsOf(s', e) == BitsOf(s, e)
  }

  lemma SameSteady(s: State, t: State, s': State, t': State, f: map<nat, nat>)
    requires Inv(s) && Inv(t) && Same(s, t, f) && Steady(s, s') && Steady(t, t') && FiguresOf(s') == FiguresOf(t')
    requires Alike(Marks, s', t', f)
    ensures Same(s', t', f)
  {
    assert Alike(Handles, s, t, f) && Alike(Parts, s, t, f) && Alike(Times, s, t, f);
    forall e | e in f && InPart(s', e)
      ensures DueOf(s', e) == DueOf(t', f[e])
    {
      assert IsEvent(s, e) && IsEvent(t, f[e]) && InPart(s, e);
    }
    SameIf(s', t', f);
  }

  lemma SameQuiet(s: State, t: State, s': State, t': State, f: map<nat, nat>)
    requires Inv(s) && Inv(t) && Same(s, t, f) && Quiet(s, s') && Quiet(t, t') && FiguresOf(s') == FiguresOf(t')
    ensures Same(s', t', f)
  {
    assert Alike(Handles, s, t, f) && Alike(Marks, s, t, f);
    forall e | e in f
      ensures BitsOf(s', e) == BitsOf(t', f[e])
    {
      assert IsEvent(s, e) && IsEvent(t, f[e]);
    }
    SameSteady(s, t, s', t', f);
  }

  lemma AllocQuiet(s: State)
    requires Whole(s) && CanAlloc(s)
    ensures Quiet(s, Alloc(s).0) && IsTaken(Alloc(s).0, Alloc(s).1) && !IsEvent(s, Alloc(s).1)
  {
    FreeEmptyIff(s);
    AllocKeeps(s);
    Shape(s);
  }

  lemma SameAlloc(s: State, t: State, f: map<nat, nat>)
    requires Whole(s) && Whole(t) && Same(s, t, f) && CanAlloc(s)
    ensures CanAlloc(t) && Same(Alloc(s).0, Alloc(t).0, f)
  {
    FreeAlike(s, t, f);
    assert Alike(Numbers, s, t, f);
    AllocQuiet(s);
    AllocQuiet(t);
    FreeEmptyIff(s);
    FreeEmptyIff(t);
    SameQuiet(s, t, Alloc(s).0, Alloc(t).0, f);
  }

  lemma SameRelease(s: State, t: State, f: map<nat, nat>, p: nat, q: nat)
    requires Inv(s) && Inv(t) && Same(s, t, f) && IsTaken(s, p) && IsTaken(t, q)
    ensures s.mem.Sized(|s.v.role|) && t.mem.Sized(|t.v.role|) && Same(Release(s, p), Release(t, q), f)
  {
    Shape(s);
    Shape(t);
    assert Alike(Numbers, s, t, f);
    SameQuiet(s, t, Release(s, p), Release(t, q), f);
  }

  lemma SameReserve(s: State, t: State, f: map<nat, nat>)
    requires Whole(s) && Whole(t) && Same(s, t, f)
    ensures Reserve(s).1 == Reserve(t).1 && Same(Reserve(s).0, Reserve(t).0, f)
  {
    FreeAlike(s, t, f);
    if s.evFree == NULL && CanAlloc(s) {
      AllocKeeps(s);
      AllocKeeps(t);
      SameAlloc(s, t, f);
      SameRelease(Alloc(s).0, Alloc(t).0, f, Alloc(s).1, Alloc(t).1);
    }
  }

  // ---------------------------------------------------------------- a new event, and its end

  lemma RenamedMore(es: seq<nat>, f: map<nat, nat>, es': seq<nat>, p: nat, q: nat)
    requires Renamed(es, f, es') && p !in f
    ensures Renamed(es, f[p := q], es')
  {
  }

  lemma SameAttach(s: State, t: State, f: map<nat, nat>, p: nat, q: nat, fl: Flags)
    requires Whole(s) && Whole(t) && Same(s, t, f) && IsTaken(s, p) && IsTaken(t, q)
    requires p < |s.flags| == |s.attached| == |s.v.role| && q < |t.flags| == |t.attached| == |t.v.role|
    ensures p !in f && Same(Attach(s, p, fl), Attach(t, q, fl), f[p := q])
  {
    var s', t', f' := Attach(s, p, fl), Attach(t, q, fl), f[p := q];
    assert Alike(Numbers, s, t, f) && Alike(Handles, s, t, f) && Alike(Marks, s, t, f);
    assert Alike(Parts, s, t, f) && Alike(Times, s, t, f);
    assert !IsEvent(s, p) && !IsEvent(t, q);
    forall ms | ms in s.v.q.part
      ensures Renamed(s.v.q.part[ms], f', t.v.q.part[ms])
    {
      RenamedMore(s.v.q.part[ms], f, t.v.q.part[ms], p, q);
    }
    AttachMatches(s, t, f, p, q, fl);
    AttachTimes(s, t, f, p, q, fl);
    SameIf(s', t', f');
  }

  lemma AttachMatches(s: State, t: State, f: map<nat, nat>, p: nat, q: nat, fl: Flags)
    requires Matches(s, t, f) && Alike(Marks, s, t, f) && !IsEvent(s, p) && !IsEvent(t, q)
    requires p < |s.flags| == |s.attached| == |s.v.role| && q < |t.flags| == |t.attached| == |t.v.role|
    ensures Matches(Attach(s, p, fl), Attach(t, q, fl), f[p := q])
    ensures Alike(Marks, Attach(s, p, fl), Attach(t, q, fl), f[p := q])
  {
    var s', t', f' := Attach(s, p, fl), Attach(t, q, fl), f[p := q];
    forall x: nat | IsEvent(t', x)
      ensures x in f'.Values
    {
      if x == q {
        assert f'[p] == q;
      } else {
        assert IsEvent(t, x);
        var a :| a in f && f[a] == x;
        assert f'[a] == x;
      }
    }
    forall e | e in f'
      ensures IsEvent(t', f'[e]) && BitsOf(s', e) == BitsOf(t', f'[e])
    {
      if e != p {
        assert IsEvent(t, f[e]) && BitsOf(s, e) == BitsOf(t, f[e]);
      }
    }
    forall a, b | a in f' && b in f' && f'[a] == f'[b]
      ensures a == b
    {
      if a != p { assert IsEvent(t, f[a]); }
      if b != p { assert IsEvent(t, f[b]); }
    }
    forall e: nat
      ensures IsEvent(s', e) <==> e in f'
    {
      assert IsEvent(s, e) <==> e in f;
    }
  }

  lemma AttachTimes(s: State, t: State, f: map<nat, nat>, p: nat, q: nat, fl: Flags)
    requires Inv(s) && Same(s, t, f) && !IsEvent(s, p)
    requires p < |s.flags| == |s.attached| == |s.v.role| && q < |t.flags| == |t.attached| == |t.v.role|
    ensures Alike(Times, Attach(s, p, fl), Attach(t, q, fl), f[p := q])
  {
    var s', f' := Attach(s, p, fl), f[p := q];
    assert Alike(Times, s, t, f);
    InPartAllocated(s);
    forall e | e in f' && InPart(s', e)
      ensures DueOf(s', e) == DueOf(Attach(t, q, fl), f'[e])
    {
      assert InPart(s, e);
    }
  }

  /** The events left when `e` is no longer one. */
  ghost function Less(f: map<nat, nat>, e: nat): map<nat, nat> {
    map x | x in f && x != e :: f[x]
  }

  /** Which events are left once `e` is out of its queue and detached. */
  ghost function AfterDetach(s: State, f: map<nat, nat>, e: nat): map<nat, nat> {
    if BitsOf(s, e).0.active then f else Less(f, e)
  }

  lemma SameDetach(s: State, t: State, f: map<nat, nat>, e: nat)
    requires Whole(s) && Whole(t) && Same(s, t, f) && IsEvent(s, e) && e in f && IsEvent(t, f[e])
    requires s.mem.Sized(|s.v.role|) && s.mem.w4[e] == NULL && e < |s.flags| == |s.attached| == |s.v.role|
    requires f[e] < |t.flags| == |t.attached| == |t.v.role|
    ensures Same(Detach(s, e), Detach(t, f[e]), AfterDetach(s, f, e))
  {
    Counterpart(s, t, f, e);
    DetachSide(s, e);
    DetachSide(t, f[e]);
    var s', t' := Detach(s, e), Detach(t, f[e]);
    assert Alike(Numbers, s, t, f);
    if s.flags[e].active {
      DetachMarks(s, t, s', t', f, e);
      SameSteady(s, t, s', t', f);
    } else {
      NotQueued(s, e);
      SameLess(s, t, s', t', f, e);
    }
  }

  /** What evq_del changes once the event is in no queue. */
  lemma DetachSide(s: State, e: nat)
    requires IsEvent(s, e) && e < |s.flags| == |s.attached| == |s.v.role|
    ensures Detach(s, e).v.q.part == s.v.q.part && FiguresOf(Detach(s, e)) == FiguresOf(s)
    ensures forall x: nat {:trigger IsEvent(Detach(s, e), x)} ::
              IsEvent(Detach(s, e), x) <==> IsEvent(s, x) && (x != e || s.flags[e].active)
    ensures forall x: nat {:trigger BitsOf(Detach(s, e), x)} ::
              BitsOf(Detach(s, e), x) == if x == e then (s.flags[e], false) else BitsOf(s, x)
    ensures forall x: nat {:trigger DueOf(Detach(s, e), x)} :: DueOf(Detach(s, e), x) == DueOf(s, x)
  {
  }

  lemma DetachMarks(s: State, t: State, s': State, t': State, f: map<nat, nat>, e: nat)
    requires Alike(Handles, s, t, f) && Alike(Marks, s, t, f) && e in f
    requires forall x: nat {:trigger BitsOf(s', x)} :: BitsOf(s', x) == if x == e then (BitsOf(s, e).0, false) else BitsOf(s, x)
    requires forall x: nat {:trigger BitsOf(t', x)} ::
               BitsOf(t', x) == if x == f[e] then (BitsOf(t, f[e]).0, false) else BitsOf(t, x)
    ensures Alike(Marks, s', t', f)
  {
    forall x | x in f
      ensures BitsOf(s', x) == BitsOf(t', f[x])
    {
      assert x == e || f[x] != f[e];
      assert BitsOf(s, x) == BitsOf(t, f[x]);
    }
  }

  /** An event in no queue that is no event any more. */
  lemma SameLess(s: State, t: State, s': State, t': State, f: map<nat, nat>, e: nat)
    requires Inv(s) && Inv(t) && Same(s, t, f) && e in f && Unqueued(s.v.q, e)
    requires FiguresOf(s') == FiguresOf(t') && s'.v.q.part == s.v.q.part && t'.v.q.part == t.v.q.part
    requires forall x: nat {:trigger IsEvent(s', x)} :: IsEvent(s', x) <==> IsEvent(s, x) && x != e
    requires forall x: nat {:trigger IsEvent(t', x)} :: IsEvent(t', x) <==> IsEvent(t, x) && x != f[e]
    requires forall x: nat {:trigger BitsOf(s', x)} :: x != e ==> BitsOf(s', x) == BitsOf(s, x)
    requires forall x: nat {:trigger BitsOf(t', x)} :: x != f[e] ==> BitsOf(t', x) == BitsOf(t, x)
    requires forall x: nat {:trigger DueOf(s', x)} :: DueOf(s', x) == DueOf(s, x)
    requires forall x: nat {:trigger DueOf(t', x)} :: DueOf(t', x) == DueOf(t, x)
    ensures Same(s', t', Less(f, e))
  {
    var g := Less(f, e);
    assert Alike(Handles, s, t, f) && Alike(Marks, s, t, f) && Alike(Parts, s, t, f) && Alike(Times, s, t, f);
    forall ms | ms in s.v.q.part
      ensures Renamed(s.v.q.part[ms], g, t.v.q.part[ms])
    {
      assert Renamed(s.v.q.part[ms], f, t.v.q.part[ms]);
      assert forall i :: 0 <= i < |s.v.q.part[ms]| ==> s.v.q.part[ms][i] in s.v.q.part[ms];
    }
    LessMatches(s, t, s', t', f, e);
    forall x | x in g
      ensures BitsOf(s', x) == BitsOf(t', g[x])
      ensures InPart(s', x) ==> DueOf(s', x) == DueOf(t', g[x])
    {
      assert f[x] != f[e];
      assert BitsOf(s, x) == BitsOf(t, f[x]);
      assert InPart(s', x) ==> InPart(s, x);
      assert BitsOf(s', x) == BitsOf(s, x) && BitsOf(t', f[x]) == BitsOf(t, f[x]);
    }
    SameIf(s', t', g);
  }

  lemma LessMatches(s: State, t: State, s': State, t': State, f: map<nat, nat>, e: nat)
    requires Matches(s, t, f) && e in f
    requires forall x: nat {:trigger IsEvent(s', x)} :: IsEvent(s', x) <==> IsEvent(s, x) && x != e
    requires forall x: nat {:trigger IsEvent(t', x)} :: IsEvent(t', x) <==> IsEvent(t, x) && x != f[e]
    ensures Matches(s', t', Less(f, e))
  {
    var g := Less(f, e);
    forall x: nat | IsEvent(t', x)
      ensures x in g.Values
    {
      assert IsEvent(t, x);
      var a :| a in f && f[a] == x;
      assert g[a] == x;
    }
    forall x | x in g
      ensures IsEvent(t', g[x])
    {
      assert IsEvent(t, f[x]) && f[x] != f[e];
    }
  }

  /** evq_del. */
  lemma SameEvqDel(s: State, t: State, f: map<nat, nat>, e: nat)
    requires Whole(s) && Whole(t) && Same(s, t, f) && IsEvent(s, e) && e < |s.attached| && s.attached[e]
    ensures e in f && IsEvent(t, f[e]) && f[e] < |t.attached| && t.attached[f[e]]
    ensures Same(EvqDel(s, e), EvqDel(t, f[e]), AfterDetach(s, f, e))
  {
    Counterpart(s, t, f, e);
    SameDel(s, t, f, e);
    Shape(DelTimeout(s, e));
    Shape(DelTimeout(t, f[e]));
    SameDetach(DelTimeout(s, e), DelTimeout(t, f[e]), f, e);
  }

  /** A flag set on an event, or on a slot that is none. */
  lemma SameMark(s: State, t: State, f: map<nat, nat>, e: nat, e': nat)
    requires Inv(s) && Inv(t) && Same(s, t, f) && e < |s.flags| && e' < |t.flags|
    requires if e in f then e' == f[e] else e' !in f.Values
    ensures Same(MarkDeleted(s, e), MarkDeleted(t, e'), f)
  {
    var s', t' := MarkDeleted(s, e), MarkDeleted(t, e');
    MarkSide(s, e);
    MarkSide(t, e');
    assert Alike(Numbers, s, t, f) && Alike(Handles, s, t, f) && Alike(Marks, s, t, f);
    Shape(s);
    Shape(t);
    forall x | x in f
      ensures BitsOf(s', x) == BitsOf(t', f[x])
    {
      assert BitsOf(s, x) == BitsOf(t, f[x]);
      if e in f {
        assert x == e <==> f[x] == f[e];
      } else {
        assert f[x] in f.Values;
      }
    }
    SameSteady(s, t, s', t', f);
  }

  lemma MarkSide(s: State, e: nat)
    requires e < |s.flags|
    ensures Steady(s, MarkDeleted(s, e)) && FiguresOf(MarkDeleted(s, e)) == FiguresOf(s)
    ensures forall x: nat {:trigger BitsOf(MarkDeleted(s, e), x)} ::
              BitsOf(MarkDeleted(s, e), x) ==
                if x == e && e < |s.attached| then (s.flags[e].(deleted := true), s.attached[e]) else BitsOf(s, x)
  {
  }

  /** levq_del. */
  lemma SameDelete(s: State, t: State, f: map<nat, nat>, e: nat)
    requires Whole(s) && Whole(t) && Same(s, t, f) && IsEvent(s, e)
    ensures e in f && IsEvent(t, f[e]) && Same(Delete(s, e), Delete(t, f[e]), AfterDetach(s, f, e))
  {
    Counterpart(s, t, f, e);
    assert Holds(Slots, s) && Holds(Slots, t);
    Shape(s);
    Shape(t);
    assert SlotOk(e, s.v, s.mem.w4, s.flags, s.attached, s.evId);
    assert SlotOk(f[e], t.v, t.mem.w4, t.flags, t.attached, t.evId);
    var s1, t1 := s, t;
    if s.attached[e] {
      SameEvqDel(s, t, f, e);
      s1, t1 := EvqDel(s, e), EvqDel(t, f[e]);
    }
    Shape(s1);
    Shape(t1);
    assert Alike(Handles, s, t, f);
    if !s.flags[e].active {
      LessValues(f, e);
      SameEnd(s1, t1, Less(f, e), e, f[e]);
    } else {
      SameMark(s1, t1, f, e, f[e]);
    }
  }

  /** The slot of an event that is none any more is freed. */
  lemma SameEnd(s: State, t: State, g: map<nat, nat>, p: nat, q: nat)
    requires Whole(s) && Whole(t) && Same(s, t, g) && IsTaken(s, p) && IsTaken(t, q) && p !in g && q !in g.Values
    ensures s.mem.Sized(|s.v.role|) && t.mem.Sized(|t.v.role|) && p < |s.flags| && q < |t.flags|
    ensures Same(MarkDeleted(Release(s, p), p), MarkDeleted(Release(t, q), q), g)
  {
    Shape(s);
    Shape(t);
    SameRelease(s, t, g, p, q);
    ReleaseKeeps(s, p);
    ReleaseKeeps(t, q);
    SameMark(Release(s, p), Release(t, q), g, p, q);
  }

  lemma LessValues(f: map<nat, nat>, e: nat)
    requires OneToOne(f) && e in f
    ensures e !in Less(f, e) && f[e] !in Less(f, e).Values
  {
  }
}
