/**
 Whole runs of the scheduler: the guard a run has to keep, both directions of it, what then holds of every
 task, and the round-robin order of the active ones.
 */
module SchedRuns {
  import opened Lists
  import opened Rings
  import opened SchedState
  import opened SchedSteps

  // ---------------------------------------------------------------- every run

  datatype Op =
    | PutOp(co: int, memory: bool)
    | PopOp
    | MarkOp(t: nat, mark: Mark)
    | FinishOp(t: nat, back: Back)
    | TerminateOp(id: int)
    | ResumeOp(id: int)
    | AddedOp(t: nat, ev: int)
    | ReadyOp(t: nat, ev: int)

  /** One operation; one that does not apply in this state does nothing. */
  ghost function Do(s: Sched, op: Op): (r: Sched)
    requires Inv(s)
    ensures if op.PopOp? && s.v.act != [] then r.v.act == s.v.act[1..] else s.v.act <= r.v.act
  {
    Shape(s);
    match op
    case PutOp(co, memory) => PutKeeps(s, co, memory); Put(s, co, memory).0
    case PopOp => if s.v.act != [] then PopKeeps(s); Pop(s) else s
    case MarkOp(t, mark) => if Stands(s, t, Running) then Marked(s, t, mark) else s
    case FinishOp(t, back) => if Stands(s, t, Running) then RingsFit(s, t); Finish(s, t, back) else s
    case TerminateOp(id) => if 0 <= id < |s.co| then RingsFit(s, id); Terminated(s, id) else s
    case ResumeOp(id) => if Resumable(s, id) then RingsFit(s, id); Woken(s, id) else s
    case AddedOp(t, ev) => if t < |s.co| then RingsFit(s, t); AddedTo(s, t, ev) else s
    case ReadyOp(t, ev) => if t < |s.co| && ev != NULL then RingsFit(s, t); Readied(s, t, ev) else s
  }

  /**
   The guard: a task that has marked itself is not woken before it comes back, and comes back by a yield
   with no termination pending; and an event is added only for a task that is suspended.
   */
  ghost predicate Allowed(s: Sched, op: Op) {
    match op
    case FinishOp(t, back) => Clean(s, t, back)
    case TerminateOp(id) => id >= 0 ==> !Hot(s, id)
    case ResumeOp(id) => Resumable(s, id) ==> !Hot(s, id)
    case AddedOp(t, ev) => t < |s.suspended| ==> if ev == NULL then !Hot(s, t) else s.suspended[t]
    case ReadyOp(t, ev) => ev != NULL && t < |s.evOp| && s.evOp[t] == ev ==> !Hot(s, t)
    case _ => true
  }

  /** One operation leaves the scheduler in order if and only if the guard allows it. */
  lemma StepKeepsIff(s: Sched, op: Op)
    requires Inv(s)
    ensures Inv(Do(s, op)) <==> Allowed(s, op)
  {
    Shape(s);
    match op {
      case PutOp(co, memory) => PutKeeps(s, co, memory);
      case PopOp => if s.v.act != [] { PopKeeps(s); }
      case MarkOp(t, mark) => if Stands(s, t, Running) { MarkKeeps(s, t, mark); }
      case FinishOp(t, back) => if Stands(s, t, Running) { FinishKeepsIff(s, t, back); }
      case TerminateOp(id) => if 0 <= id < |s.co| { TerminateKeepsIff(s, id); }
      case ResumeOp(id) => if Resumable(s, id) { ResumeKeepsIff(s, id); }
      case AddedOp(t, ev) => if t < |s.co| { AddedKeepsIff(s, t, ev); }
      case ReadyOp(t, ev) => if t < |s.co| && ev != NULL { ReadyKeepsIff(s, t, ev); }
    }
  }

  ghost predicate Guarded(s: Sched, ops: seq<Op>)
    requires Inv(s)
    decreases |ops|
  {
    ops == [] || (Allowed(s, ops[0]) && (StepKeepsIff(s, ops[0]); Guarded(Do(s, ops[0]), ops[1..])))
  }

  /** The scheduler is in order after every operation of the run. */
  ghost predicate InOrder(s: Sched, ops: seq<Op>)
    requires Inv(s)
    decreases |ops|
  {
    ops == [] || (Inv(Do(s, ops[0])) && InOrder(Do(s, ops[0]), ops[1..]))
  }

  /** The runs that keep the scheduler in order are exactly the guarded ones. */
  lemma {:induction false} InOrderIff(s: Sched, ops: seq<Op>)
    requires Inv(s)
    ensures InOrder(s, ops) <==> Guarded(s, ops)
    decreases |ops|
  {
    if ops != [] {
      StepKeepsIff(s, ops[0]);
      if Allowed(s, ops[0]) {
        InOrderIff(Do(s, ops[0]), ops[1..]);
      }
    }
  }

  ghost function Run(s: Sched, ops: seq<Op>): (r: Sched)
    requires Inv(s) && Guarded(s, ops)
    ensures Inv(r)
    decreases |ops|
  {
    if ops == [] then s
    else
      StepKeepsIff(s, ops[0]);
      Run(Do(s, ops[0]), ops[1..])
  }

  /** sched_new. */
  function Init(): Sched {
    Sched([], [], [], [], [], [], [], [], NULL, NULL, 0, 0, 0, View([], [], [], {}))
  }

  ghost function New(): (r: Sched)
    ensures Inv(r)
  {
    var s := Init();
    assert forall c :: Holds(c, s);
    s
  }

  /** The number of ids that are not free. */
  function InUse(place: seq<Place>): nat {
    if place == [] then 0 else InUse(place[..|place| - 1]) + if place[|place| - 1] == Free then 0 else 1
  }

  lemma HasMember(s: seq<nat>)
    requires s != []
    ensures exists p :: p in s
  {
    assert s[0] in s;
  }

  lemma {:induction false} InUseCounts(place: seq<Place>, fr: seq<nat>)
    requires Distinct(fr) && forall p :: p in fr <==> 0 <= p < |place| && place[p] == Free
    ensures InUse(place) + |fr| == |place|
  {
    if place == [] {
      if fr != [] {
        HasMember(fr);
        assert false;
      }
    } else {
      var n := |place| - 1;
      if place[n] == Free {
        var k := IndexOf(fr, n);
        WithoutMembers(fr, k);
        forall i, j | 0 <= i < j < |Without(fr, k)|
          ensures Without(fr, k)[i] != Without(fr, k)[j]
        {
          WithoutAt(fr, k, i);
          WithoutAt(fr, k, j);
        }
        InUseCounts(place[..n], Without(fr, k));
      } else {
        InUseCounts(place[..n], fr);
      }
    }
  }

  /**
   After every guarded run both rings are well-formed cycles, each id is in exactly one of the active ring,
   the free ring, a worker's hands and the parked tasks, a task in a ring is not suspended, one that waits
   for an event is, and ntasks counts the ids that are not free.
   */
  lemma EveryTaskInOnePlace(ops: seq<Op>)
    requires Guarded(New(), ops)
    ensures var s := Run(New(), ops);
            && Ring(s.prev, s.next, s.active, s.v.act) && Ring(s.prev, s.next, s.free, s.v.fr)
            && Sized(s) && |s.co| <= s.bufMax && s.ntasks == InUse(s.v.place)
            && forall t: nat :: t < |s.co| ==>
                 && (t in s.v.act <==> s.v.place[t] == Active)
                 && (t in s.v.fr <==> s.v.place[t] == Free)
                 && (t in s.v.held <==> s.v.place[t] == Running)
                 && (s.v.place[t] == Parked ==> s.suspended[t])
                 && (t in s.v.act || t in s.v.fr ==> !s.suspended[t])
                 && (s.evOp[t] != NULL ==> s.suspended[t])
  {
    var s := Run(New(), ops);
    assert Holds(ActiveRing, s) && Holds(FreeRing, s) && Holds(Tasks, s) && Holds(Sizes, s) && Holds(Counts, s);
    forall t: nat | t < |s.co|
      ensures t in s.v.act <==> s.v.place[t] == Active
      ensures t in s.v.fr <==> s.v.place[t] == Free
      ensures t in s.v.held <==> s.v.place[t] == Running
      ensures s.v.place[t] == Parked ==> s.suspended[t]
      ensures t in s.v.act || t in s.v.fr ==> !s.suspended[t]
      ensures s.evOp[t] != NULL ==> s.suspended[t]
    {
      assert TaskOk(t, s);
    }
    InUseCounts(s.v.place, s.v.fr);
  }

  // ---------------------------------------------------------------- round robin

  /** How many of the operations take a task off the active ring. */
  ghost function Pops(s: Sched, ops: seq<Op>): nat
    requires Inv(s) && Guarded(s, ops)
    decreases |ops|
  {
    if ops == [] then 0
    else
      StepKeepsIff(s, ops[0]);
      (if ops[0].PopOp? && s.v.act != [] then 1 else 0) + Pops(Do(s, ops[0]), ops[1..])
  }

  /** A task moves up by one with every pop, whatever else happens in between. */
  lemma {:induction false} RoundRobin(s: Sched, ops: seq<Op>, k: nat)
    requires Inv(s) && Guarded(s, ops) && k < |s.v.act| && Pops(s, ops) <= k
    ensures var act := Run(s, ops).v.act;
            k - Pops(s, ops) < |act| && act[k - Pops(s, ops)] == s.v.act[k]
    decreases |ops|
  {
    if ops != [] {
      StepKeepsIff(s, ops[0]);
      var s1 := Do(s, ops[0]);
      var j := if ops[0].PopOp? then k - 1 else k;
      assert Pops(s, ops) == k - j + Pops(s1, ops[1..]);
      assert 0 <= j < |s1.v.act| && s1.v.act[j] == s.v.act[k];
      RoundRobin(s1, ops[1..], j);
    }
  }

  /** The task at position `k` is the next one taken after exactly `k` pops. */
  lemma NextAfterPops(s: Sched, ops: seq<Op>, k: nat)
    requires Inv(s) && Guarded(s, ops) && k < |s.v.act| && Pops(s, ops) == k
    ensures Run(s, ops).active == s.v.act[k]
  {
    RoundRobin(s, ops, k);
    EmptyIff(Run(s, ops));
  }

  // ---------------------------------------------------------------- ids keep their meaning

  /** Only sched_put gives an id a new coroutine, and only an id that was free or has not existed. */
  lemma IdsKeepCoroutines(s: Sched, op: Op, t: nat)
    requires Inv(s) && t < |s.co|
    ensures t < |Do(s, op).co|
    ensures Do(s, op).co[t] != s.co[t] ==>
              op.PutOp? && Stands(s, t, Free) && PutFits(s, op.co, op.memory) && t == Put(s, op.co, op.memory).1
  {
    Shape(s);
    EmptyIff(s);
    if op.PutOp? {
      PutKeeps(s, op.co, op.memory);
      if s.v.fr != [] {
        assert s.v.fr[0] in s.v.fr;
        RingsApart(s);
        AtTask(s, s.v.fr[0]);
      }
    }
  }
}
