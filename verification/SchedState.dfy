/**
 The coroutine scheduler of src/thread/thread_sched.c on values: a growable array of tasks with two
 circular lists threaded through it, and the moves of a task between its places.
 */
module SchedState {
  import opened Lists
  import opened Rings

  const BUF_MIN := 32   // SCHED_BUF_MIN

  /** `Running` is a task in a worker's hands; `Parked` one that is suspended or waits for an event. */
  datatype Place = Active | Free | Running | Parked

  /** What the words amount to: the place of every id, both rings from their heads on, and what workers hold. */
  datatype View = View(place: seq<Place>, act: seq<nat>, fr: seq<nat>, held: set<nat>)

  /** struct scheduler with its tasks field by field; `co` are the coroutines, `evOp` is NULL or a handle. */
  datatype Sched = Sched(
    co: seq<int>, prev: seq<int>, next: seq<int>, evOp: seq<int>,
    started: seq<bool>, suspended: seq<bool>, evAdded: seq<bool>, terminate: seq<bool>,
    active: int, free: int, ntasks: int, tick: nat, bufMax: nat, v: View)

  datatype Clause = Sizes | ActiveRing | FreeRing | Tasks | Counts

  ghost predicate Sized(s: Sched) {
    |s.co| == |s.prev| == |s.next| == |s.evOp| == |s.started| == |s.suspended| == |s.evAdded| == |s.terminate|
    == |s.v.place|
  }

  /** A parked task is suspended; a running one is when it has marked itself and not come back yet. */
  ghost predicate TaskOk(p: nat, s: Sched)
    requires Sized(s) && p < |s.co|
  {
    && (s.v.place[p] == Active <==> p in s.v.act)
    && (s.v.place[p] == Free <==> p in s.v.fr)
    && (s.v.place[p] == Running <==> p in s.v.held)
    && (s.v.place[p] == Parked ==> s.suspended[p])
    && (s.suspended[p] ==> s.v.place[p] == Parked || s.v.place[p] == Running)
    && (s.evOp[p] != NULL ==> s.suspended[p])
  }

  ghost predicate Holds(c: Clause, s: Sched) {
    match c
    case Sizes => Sized(s) && |s.co| <= s.bufMax
    case ActiveRing => Ring(s.prev, s.next, s.active, s.v.act)
    case FreeRing => Ring(s.prev, s.next, s.free, s.v.fr)
    case Tasks => Sized(s) && forall p: nat {:trigger TaskOk(p, s)} :: p < |s.co| ==> TaskOk(p, s)
    case Counts => s.ntasks + |s.v.fr| == |s.v.place|
  }

  ghost predicate Inv(s: Sched) {
    forall c {:trigger Holds(c, s)} :: Holds(c, s)
  }

  ghost predicate Stands(s: Sched, t: nat, p: Place) { t < |s.v.place| && s.v.place[t] == p }

  /** The task has marked itself and is still running. */
  ghost predicate Hot(s: Sched, t: nat) {
    Stands(s, t, Running) && t < |s.suspended| && s.suspended[t]
  }

  lemma Shape(s: Sched)
    requires Inv(s)
    ensures Sized(s) && |s.co| <= s.bufMax
  {
    assert Holds(Sizes, s);
  }

  lemma AtTask(s: Sched, t: nat)
    requires Inv(s) && t < |s.v.place|
    ensures Sized(s) && TaskOk(t, s)
  {
    assert Holds(Tasks, s);
  }

  lemma RingsApart(s: Sched)
    requires Inv(s)
    ensures Sized(s) && Within(s.v.act, |s.co|) && Within(s.v.fr, |s.co|)
    ensures forall p :: p in s.v.act ==> p !in s.v.fr
  {
    assert Holds(Tasks, s) && Holds(ActiveRing, s) && Holds(FreeRing, s);
    forall p | p in s.v.act
      ensures p !in s.v.fr
    {
      assert TaskOk(p, s);
    }
  }

  // ---------------------------------------------------------------- a task between two places

  ghost predicate HoldsBut(c: Clause, s: Sched, t: nat) {
    if c.Tasks? then
      && Sized(s) && t < |s.co| && t !in s.v.act && t !in s.v.fr && t !in s.v.held
      && !s.suspended[t] && s.evOp[t] == NULL
      && forall p: nat {:trigger TaskOk(p, s)} :: p < |s.co| && p != t ==> TaskOk(p, s)
    else Holds(c, s)
  }

  /** All is in order but for the task `t`, which is nowhere. */
  ghost predicate Between(s: Sched, t: nat) {
    forall c {:trigger HoldsBut(c, s, t)} :: HoldsBut(c, s, t)
  }

  /** The bits of one task change, or it goes from running to parked. */
  ghost predicate OnlyBits(s: Sched, s': Sched, t: nat) {
    && Sized(s) && Sized(s') && |s'.v.place| == |s.v.place|
    && s' == s.(suspended := s'.suspended, evOp := s'.evOp, evAdded := s'.evAdded, terminate := s'.terminate,
                started := s'.started, tick := s'.tick, v := s.v.(place := s'.v.place, held := s'.v.held))
    && forall p: nat {:trigger s'.suspended[p]} {:trigger s'.evOp[p]} {:trigger s'.v.place[p]} ::
         p < |s.co| && p != t ==>
           && s'.suspended[p] == s.suspended[p] && s'.evOp[p] == s.evOp[p] && s'.v.place[p] == s.v.place[p]
           && (p in s'.v.held <==> p in s.v.held)
  }

  lemma BitsElsewhere(s: Sched, s': Sched, t: nat, p: nat)
    requires Inv(s) && OnlyBits(s, s', t) && p < |s.v.place| && p != t
    ensures TaskOk(p, s')
  {
    AtTask(s, p);
    assert s'.suspended[p] == s.suspended[p];
  }

  /** Then all depends on that task. */
  lemma BitsKeepIff(s: Sched, s': Sched, t: nat)
    requires Inv(s) && t < |s.v.place| && OnlyBits(s, s', t)
    ensures Inv(s') <==> TaskOk(t, s')
  {
    assert Holds(ActiveRing, s) && Holds(FreeRing, s) && Holds(Sizes, s) && Holds(Counts, s);
    if !TaskOk(t, s') {
      assert !Holds(Tasks, s');
    } else {
      forall c
        ensures Holds(c, s')
      {
        if c.Tasks? {
          forall p: nat | p < |s'.co|
            ensures TaskOk(p, s')
          {
            if p != t { BitsElsewhere(s, s', t, p); }
          }
        }
      }
    }
  }

  lemma BitsBetween(s: Sched, s': Sched, t: nat)
    requires Inv(s) && t < |s.v.place| && OnlyBits(s, s', t)
    requires t !in s.v.act && t !in s.v.fr && t !in s'.v.held && !s'.suspended[t] && s'.evOp[t] == NULL
    ensures Between(s', t)
  {
    assert Holds(ActiveRing, s) && Holds(FreeRing, s) && Holds(Sizes, s) && Holds(Counts, s);
    forall c
      ensures HoldsBut(c, s', t)
    {
      if c.Tasks? {
        forall p: nat | p < |s'.co| && p != t
          ensures TaskOk(p, s')
        {
          BitsElsewhere(s, s', t, p);
        }
      } else {
        assert Holds(c, s');
      }
    }
  }

  // ---------------------------------------------------------------- onto a ring

  ghost predicate Queueable(s: Sched, t: nat) {
    Sized(s) && t < |s.co| && Addable(s.prev, s.next, s.active, t)
  }

  /** The task becomes the last of the active ring. */
  ghost function Enqueue(s: Sched, t: nat): Sched
    requires Queueable(s, t)
  {
    s.(prev := AddPrev(s.prev, s.next, s.active, t), next := AddNext(s.prev, s.next, s.active, t),
       active := AddHead(s.active, t), v := s.v.(place := s.v.place[t := Active], act := s.v.act + [t]))
  }

  lemma EnqueueKeeps(s: Sched, t: nat)
    requires Between(s, t)
    ensures Queueable(s, t) && Inv(Enqueue(s, t))
  {
    assert HoldsBut(ActiveRing, s, t) && HoldsBut(FreeRing, s, t) && HoldsBut(Tasks, s, t) && HoldsBut(Sizes, s, t)
           && HoldsBut(Counts, s, t);
    RingAdd(s.prev, s.next, s.active, s.v.act, t);
    ApartBut(s, t);
    var s' := Enqueue(s, t);
    forall c
      ensures Holds(c, s')
    {
      match c {
        case Sizes =>
        case ActiveRing =>
        case FreeRing => RingFrame(s.prev, s.next, s'.prev, s'.next, s.free, s.v.fr);
        case Tasks =>
          forall p: nat | p < |s'.co|
            ensures TaskOk(p, s')
          {
            if p != t { assert TaskOk(p, s); }
          }
        case Counts =>
      }
    }
  }

  lemma ApartBut(s: Sched, t: nat)
    requires Between(s, t)
    ensures forall p :: p in s.v.act ==> p !in s.v.fr
  {
    assert HoldsBut(Tasks, s, t) && HoldsBut(ActiveRing, s, t);
    forall p | p in s.v.act
      ensures p !in s.v.fr
    {
      assert TaskOk(p, s);
    }
  }

  ghost predicate Freeable(s: Sched, t: nat) {
    Sized(s) && t < |s.co| && Addable(s.prev, s.next, s.free, t)
  }

  /** sched_task_del: the task becomes the last of the free ring; its bits stay as they are. */
  ghost function Discard(s: Sched, t: nat): Sched
    requires Freeable(s, t)
  {
    s.(prev := AddPrev(s.prev, s.next, s.free, t), next := AddNext(s.prev, s.next, s.free, t),
       free := AddHead(s.free, t), ntasks := s.ntasks - 1,
       v := s.v.(place := s.v.place[t := Free], fr := s.v.fr + [t]))
  }

  lemma DiscardKeeps(s: Sched, t: nat)
    requires Between(s, t)
    ensures Freeable(s, t) && Inv(Discard(s, t))
  {
    assert HoldsBut(ActiveRing, s, t) && HoldsBut(FreeRing, s, t) && HoldsBut(Tasks, s, t) && HoldsBut(Sizes, s, t)
           && HoldsBut(Counts, s, t);
    RingAdd(s.prev, s.next, s.free, s.v.fr, t);
    ApartBut(s, t);
    var s' := Discard(s, t);
    forall c
      ensures Holds(c, s')
    {
      match c {
        case Sizes =>
        case ActiveRing => RingFrame(s.prev, s.next, s'.prev, s'.next, s.active, s.v.act);
        case FreeRing =>
        case Tasks =>
          forall p: nat | p < |s'.co|
            ensures TaskOk(p, s')
          {
            if p != t { assert TaskOk(p, s); }
          }
        case Counts =>
      }
    }
  }

  /** The words of a well-formed ring lead to ids. */
  lemma RingLeads(prev: seq<int>, next: seq<int>, head: int, r: seq<nat>, t: nat)
    requires Ring(prev, next, head, r) && t < |next|
    ensures Addable(prev, next, head, t)
    ensures head == NULL <==> r == []
    ensures r != [] ==> head == r[0] && Removable(prev, next, r[0])
  {
    if r != [] {
      assert prev[r[0]] == PrevOf(r, 0) && PrevOf(r, 0) in r;
      assert next[r[0]] == NextOf(r, 0) && NextOf(r, 0) in r;
    }
  }

  /** Any id can be added to either ring, sensibly or not. */
  lemma RingsFit(s: Sched, t: nat)
    requires Inv(s) && t < |s.v.place|
    ensures Queueable(s, t) && Freeable(s, t)
  {
    assert Holds(ActiveRing, s) && Holds(FreeRing, s) && Holds(Sizes, s);
    RingLeads(s.prev, s.next, s.active, s.v.act, t);
    RingLeads(s.prev, s.next, s.free, s.v.fr, t);
  }

  /** The worker gives the task out of its hands. */
  ghost function Dropped(s: Sched, t: nat): Sched {
    s.(v := s.v.(held := s.v.held - {t}))
  }

  lemma DroppedBetween(s: Sched, t: nat)
    requires Inv(s) && Stands(s, t, Running) && !Hot(s, t)
    ensures Between(Dropped(s, t), t)
  {
    AtTask(s, t);
    BitsBetween(s, Dropped(s, t), t);
  }

  // ---------------------------------------------------------------- off a ring

  ghost predicate Takeable(s: Sched) {
    Sized(s) && s.v.act != [] && s.active == s.v.act[0] < |s.co| && Removable(s.prev, s.next, s.v.act[0])
  }

  /** The head of the active ring is taken by a worker. */
  ghost function Take(s: Sched): Sched
    requires Takeable(s)
  {
    var t := s.v.act[0];
    s.(prev := DelPrev(s.prev, s.next, t), next := DelNext(s.prev, s.next, t), active := DelHead(s.next, s.active, t),
       v := s.v.(place := s.v.place[t := Running], act := s.v.act[1..], held := s.v.held + {t}))
  }

  lemma TakeKeeps(s: Sched)
    requires Inv(s) && s.v.act != []
    ensures Takeable(s) && Inv(Take(s)) && Stands(Take(s), s.v.act[0], Running) && !Hot(Take(s), s.v.act[0])
  {
    RingsApart(s);
    var t := s.v.act[0];
    assert t in s.v.act;
    assert Holds(ActiveRing, s) && Holds(FreeRing, s) && Holds(Sizes, s) && Holds(Counts, s);
    RingDel(s.prev, s.next, s.active, s.v.act, 0);
    Uncons(s.v.act);
    TakeTasks(s);
    var s' := Take(s);
    forall c
      ensures Holds(c, s')
    {
      match c {
        case Sizes =>
        case ActiveRing =>
        case FreeRing => RingFrame(s.prev, s.next, s'.prev, s'.next, s.free, s.v.fr);
        case Tasks =>
        case Counts =>
      }
    }
  }

  lemma TakeTasks(s: Sched)
    requires Inv(s) && Takeable(s)
    ensures Holds(Tasks, Take(s)) && !Hot(Take(s), s.v.act[0])
  {
    assert Holds(Tasks, s) && Holds(ActiveRing, s);
    Uncons(s.v.act);
    var t, s' := s.v.act[0], Take(s);
    assert TaskOk(t, s);
    forall p: nat | p < |s'.co|
      ensures TaskOk(p, s')
    {
      assert TaskOk(p, s);
    }
  }

  ghost predicate Reusable(s: Sched) {
    Sized(s) && s.v.fr != [] && s.free == s.v.fr[0] < |s.co| && Removable(s.prev, s.next, s.v.fr[0])
  }

  /** memset, and the new coroutine. */
  ghost function Cleared(s: Sched, t: nat, co: int): Sched
    requires Sized(s) && t < |s.co|
  {
    s.(co := s.co[t := co], prev := s.prev[t := 0], next := s.next[t := 0], evOp := s.evOp[t := NULL],
       started := s.started[t := false], suspended := s.suspended[t := false], evAdded := s.evAdded[t := false],
       terminate := s.terminate[t := false])
  }

  /** The head of the free ring is taken for a new task. */
  ghost function TakeFree(s: Sched): Sched
    requires Reusable(s)
  {
    var t := s.v.fr[0];
    s.(prev := DelPrev(s.prev, s.next, t), next := DelNext(s.prev, s.next, t), free := DelHead(s.next, s.free, t),
       ntasks := s.ntasks + 1, v := s.v.(place := s.v.place[t := Running], fr := s.v.fr[1..], held := s.v.held + {t}))
  }

  lemma TakeFreeKeeps(s: Sched)
    requires Inv(s) && s.v.fr != []
    ensures Reusable(s) && Inv(TakeFree(s)) && Stands(TakeFree(s), s.v.fr[0], Running)
  {
    RingsApart(s);
    assert s.v.fr[0] in s.v.fr;
    assert Holds(ActiveRing, s) && Holds(FreeRing, s) && Holds(Sizes, s) && Holds(Counts, s);
    RingDel(s.prev, s.next, s.free, s.v.fr, 0);
    Uncons(s.v.fr);
    TakeFreeTasks(s);
    var s' := TakeFree(s);
    forall c
      ensures Holds(c, s')
    {
      match c {
        case Sizes =>
        case ActiveRing => RingFrame(s.prev, s.next, s'.prev, s'.next, s.active, s.v.act);
        case FreeRing =>
        case Tasks =>
        case Counts =>
      }
    }
  }

  lemma TakeFreeTasks(s: Sched)
    requires Inv(s) && Reusable(s)
    ensures Holds(Tasks, TakeFree(s))
  {
    assert Holds(Tasks, s) && Holds(FreeRing, s);
    Uncons(s.v.fr);
    var t, s' := s.v.fr[0], TakeFree(s);
    assert TaskOk(t, s);
    forall p: nat | p < |s'.co|
      ensures TaskOk(p, s')
    {
      assert TaskOk(p, s);
    }
  }

  lemma ClearedKeeps(s: Sched, t: nat, co: int)
    requires Inv(s) && Stands(s, t, Running)
    ensures Sized(s) && Inv(Cleared(s, t, co)) && Stands(Cleared(s, t, co), t, Running)
    ensures !Hot(Cleared(s, t, co), t)
  {
    AtTask(s, t);
    assert Holds(ActiveRing, s) && Holds(FreeRing, s) && Holds(Tasks, s) && Holds(Sizes, s) && Holds(Counts, s);
    var s' := Cleared(s, t, co);
    forall c
      ensures Holds(c, s')
    {
      match c {
        case Sizes =>
        case ActiveRing => RingFrame(s.prev, s.next, s'.prev, s'.next, s.active, s.v.act);
        case FreeRing => RingFrame(s.prev, s.next, s'.prev, s'.next, s.free, s.v.fr);
        case Tasks =>
          forall p: nat | p < |s'.co|
            ensures TaskOk(p, s')
          {
            assert TaskOk(p, s);
          }
        case Counts =>
      }
    }
  }

  function Grown(bufMax: nat): nat {
    if bufMax > 0 then 2 * bufMax else BUF_MIN
  }

  /** A task in a slot never used before; a full buffer is reallocated. */
  ghost function Carve(s: Sched, co: int): Sched {
    s.(co := s.co + [co], prev := s.prev + [0], next := s.next + [0], evOp := s.evOp + [NULL],
       started := s.started + [false], suspended := s.suspended + [false], evAdded := s.evAdded + [false],
       terminate := s.terminate + [false], ntasks := s.ntasks + 1,
       bufMax := if |s.co| == s.bufMax then Grown(s.bufMax) else s.bufMax,
       v := s.v.(place := s.v.place + [Running], held := s.v.held + {|s.co|}))
  }

  lemma CarveKeeps(s: Sched, co: int)
    requires Inv(s)
    ensures Inv(Carve(s, co)) && Stands(Carve(s, co), |s.co|, Running) && !Hot(Carve(s, co), |s.co|)
  {
    RingsApart(s);
    assert Holds(ActiveRing, s) && Holds(FreeRing, s) && Holds(Tasks, s) && Holds(Sizes, s) && Holds(Counts, s);
    var s' := Carve(s, co);
    forall c
      ensures Holds(c, s')
    {
      match c {
        case Sizes =>
        case ActiveRing => RingFrame(s.prev, s.next, s'.prev, s'.next, s.active, s.v.act);
        case FreeRing => RingFrame(s.prev, s.next, s'.prev, s'.next, s.free, s.v.fr);
        case Tasks =>
          forall p: nat | p < |s'.co|
            ensures TaskOk(p, s')
          {
            if p < |s.co| { assert TaskOk(p, s); }
          }
        case Counts =>
      }
    }
  }

  // ---------------------------------------------------------------- waking up

  /** The task is no longer suspended and becomes the last of the active ring, wherever else it may be. */
  ghost function Woken(s: Sched, t: nat): Sched
    requires Queueable(s, t)
  {
    Enqueue(s.(suspended := s.suspended[t := false]), t)
  }

  /** Nothing is waited for any more. */
  ghost function Forgotten(s: Sched, t: nat): Sched
    requires Sized(s) && t < |s.co|
  {
    s.(evOp := s.evOp[t := NULL], evAdded := s.evAdded[t := false])
  }

  /** Waking up a suspended task leaves the scheduler in order if and only if no worker has it in hands. */
  lemma WokenKeepsIff(s: Sched, t: nat)
    requires Inv(s) && t < |s.v.place| && t < |s.suspended| && s.suspended[t] && t < |s.evOp| && s.evOp[t] == NULL
    ensures Queueable(s, t) && (Inv(Woken(s, t)) <==> !Hot(s, t))
  {
    AtTask(s, t);
    RingsFit(s, t);
    if Hot(s, t) {
      assert !TaskOk(t, Woken(s, t));
      assert !Holds(Tasks, Woken(s, t));
    } else {
      BitsBetween(s, s.(suspended := s.suspended[t := false]), t);
      EnqueueKeeps(s.(suspended := s.suspended[t := false]), t);
    }
  }
}
