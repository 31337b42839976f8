/**
 The operations of the scheduler on values.  They are defined on every state whose words lead to ids; for
 each of them it is said exactly when it leaves a scheduler in order in order.
 */
module SchedSteps {
  import opened Lists
  import opened Rings
  import opened SchedState

  // ---------------------------------------------------------------- sched_put

  ghost predicate Allocable(s: Sched) {
    Sized(s) && (s.free != NULL ==> Reusable(s))
  }

  /** sched_task_alloc and the clearing of the task; NULL when the buffer is full and cannot be made larger. */
  ghost function Alloc(s: Sched, co: int, memory: bool): (Sched, int)
    requires Allocable(s)
  {
    if s.free != NULL then (Cleared(TakeFree(s), s.v.fr[0], co), s.v.fr[0])
    else if |s.co| == s.bufMax && !memory then (s, NULL)
    else (Carve(s, co), |s.co|)
  }

  ghost predicate PutFits(s: Sched, co: int, memory: bool) {
    Allocable(s) && var (s1, t) := Alloc(s, co, memory); t == NULL || (t >= 0 && Queueable(s1, t))
  }

  ghost function Put(s: Sched, co: int, memory: bool): (Sched, int)
    requires PutFits(s, co, memory)
  {
    var (s1, t) := Alloc(s, co, memory);
    if t == NULL then (s, NULL) else (Enqueue(Dropped(s1, t), t), t)
  }

  lemma EmptyIff(s: Sched)
    requires Inv(s)
    ensures s.active == NULL <==> s.v.act == []
    ensures s.free == NULL <==> s.v.fr == []
    ensures s.v.act != [] ==> s.active == s.v.act[0]
    ensures s.v.fr != [] ==> s.free == s.v.fr[0]
  {
    assert Holds(ActiveRing, s) && Holds(FreeRing, s);
  }

  lemma AllocKeeps(s: Sched, co: int, memory: bool)
    requires Inv(s)
    ensures Allocable(s)
    ensures var (s1, t) := Alloc(s, co, memory);
            if t == NULL then s1 == s
            else t >= 0 && Inv(s1) && Stands(s1, t, Running) && !Hot(s1, t) && s1.v.act == s.v.act
  {
    EmptyIff(s);
    Shape(s);
    if s.free != NULL {
      TakeFreeKeeps(s);
      ClearedKeeps(TakeFree(s), s.v.fr[0], co);
    } else if |s.co| < s.bufMax || memory {
      CarveKeeps(s, co);
    }
  }

  lemma PutKeeps(s: Sched, co: int, memory: bool)
    requires Inv(s)
    ensures PutFits(s, co, memory)
    ensures var (r, t) := Put(s, co, memory);
            Inv(r) && if t == NULL then r == s else t >= 0 && r.v.act == s.v.act + [t as nat]
  {
    AllocKeeps(s, co, memory);
    var (s1, t) := Alloc(s, co, memory);
    if t != NULL {
      DroppedBetween(s1, t);
      EnqueueKeeps(Dropped(s1, t), t);
    }
  }

  // ---------------------------------------------------------------- the loop of sched_loop

  ghost predicate PopFits(s: Sched) {
    Takeable(s) && Freeable(Take(s), s.v.act[0])
  }

  /** Up to lua_resume: the head of the active ring is taken; a task to be terminated goes, another one starts. */
  ghost function Pop(s: Sched): Sched
    requires PopFits(s)
  {
    var t, s1 := s.v.act[0], Take(s);
    if s1.terminate[t] then Discard(Dropped(s1, t), t) else Begun(s1, t)
  }

  ghost function Begun(s: Sched, t: nat): Sched
    requires Sized(s) && t < |s.co|
  {
    s.(started := s.started[t := true], tick := s.tick + 1)
  }

  lemma PopKeeps(s: Sched)
    requires Inv(s) && s.v.act != []
    ensures PopFits(s) && Inv(Pop(s)) && Pop(s).v.act == s.v.act[1..]
  {
    TakeKeeps(s);
    var t, s1 := s.v.act[0], Take(s);
    RingsFit(s1, t);
    if s1.terminate[t] {
      DroppedBetween(s1, t);
      DiscardKeeps(Dropped(s1, t), t);
    } else {
      AtTask(s1, t);
      BitsKeepIff(s1, Begun(s1, t), t);
    }
  }

  /**
   What a running task does to its own bits: sched_suspend, an event added to the event queue at once (NULL
   if that failed), or one to be added by the thread that polls, which leaves the handle of the operation.
   */
  datatype Mark = Suspending | Waiting(ev: int) | Pending(op: int)

  ghost function Marked(s: Sched, t: nat, mark: Mark): Sched
    requires Sized(s) && t < |s.co|
  {
    match mark
    case Suspending => if s.evOp[t] != NULL then s else s.(suspended := s.suspended[t := true])
    case Waiting(ev) =>
      if ev == NULL then s
      else s.(suspended := s.suspended[t := true], evOp := s.evOp[t := ev], evAdded := s.evAdded[t := true])
    case Pending(op) =>
      if op == NULL then s
      else if !s.evAdded[t] then s.(suspended := s.suspended[t := true], evOp := s.evOp[t := op])
      else if s.evOp[t] == NULL then s.(suspended := s.suspended[t := false], evAdded := s.evAdded[t := false])
      else s.(suspended := s.suspended[t := true])
  }

  lemma MarkKeeps(s: Sched, t: nat, mark: Mark)
    requires Inv(s) && Stands(s, t, Running)
    ensures Sized(s) && Inv(Marked(s, t, mark))
  {
    AtTask(s, t);
    BitsKeepIff(s, Marked(s, t, mark), t);
  }

  /**
   How a coroutine comes back from lua_resume.  One that has marked itself usually yields, but need not:
   lua_yield raises an error across a C call, which the coroutine may catch to go on running.
   */
  datatype Back = Yields | Returns | Fails

  ghost predicate FinishFits(s: Sched, t: nat) {
    Queueable(s, t) && Freeable(s, t)
  }

  /** From lua_resume on. */
  ghost function Finish(s: Sched, t: nat, back: Back): Sched
    requires FinishFits(s, t)
  {
    var s1 := Dropped(s, t);
    if !back.Yields? || s.terminate[t] then Discard(s1, t)
    else if s.suspended[t] then s1.(v := s1.v.(place := s1.v.place[t := Parked]))
    else Enqueue(s1, t)
  }

  /** Not suspended, or a yield with no termination pending. */
  ghost predicate Clean(s: Sched, t: nat, back: Back) {
    t < |s.terminate| ==> !Hot(s, t) || (back.Yields? && !s.terminate[t])
  }

  lemma FinishKeepsIff(s: Sched, t: nat, back: Back)
    requires Inv(s) && Stands(s, t, Running)
    ensures FinishFits(s, t) && (Inv(Finish(s, t, back)) <==> Clean(s, t, back))
  {
    AtTask(s, t);
    RingsFit(s, t);
    var s' := Finish(s, t, back);
    if !Hot(s, t) {
      DroppedBetween(s, t);
      if !back.Yields? || s.terminate[t] {
        DiscardKeeps(Dropped(s, t), t);
      } else {
        EnqueueKeeps(Dropped(s, t), t);
      }
    } else if back.Yields? && !s.terminate[t] {
      BitsKeepIff(s, s', t);
    } else {
      assert !TaskOk(t, s');
      assert !Holds(Tasks, s');
    }
  }

  // ---------------------------------------------------------------- waking up

  /** The stores of sched_terminate for a known id. */
  ghost function Terminated(s: Sched, t: nat): Sched
    requires Queueable(s, t)
  {
    var s1 := s.(terminate := s.terminate[t := true]);
    var s2 := if s1.suspended[t] then Woken(s1, t) else s1;
    if s2.evOp[t] != NULL then Forgotten(s2, t) else s2
  }

  lemma TerminatedIs(s: Sched, t: nat)
    requires Queueable(s, t) && s.suspended[t]
    ensures var s1 := s.(terminate := s.terminate[t := true]);
            Terminated(s, t) == Woken(if s.evOp[t] != NULL then Forgotten(s1, t) else s1, t)
  {
  }

  lemma TerminateKeepsIff(s: Sched, t: nat)
    requires Inv(s) && t < |s.v.place|
    ensures Queueable(s, t) && (Inv(Terminated(s, t)) <==> !Hot(s, t))
  {
    AtTask(s, t);
    RingsFit(s, t);
    var s1 := s.(terminate := s.terminate[t := true]);
    var s2 := if s.evOp[t] != NULL then Forgotten(s1, t) else s1;
    BitsKeepIff(s, s2, t);
    if s.suspended[t] {
      TerminatedIs(s, t);
      WokenKeepsIff(s2, t);
    }
  }

  ghost predicate Resumable(s: Sched, id: int) {
    Sized(s) && 0 <= id < |s.co| && s.suspended[id] && s.evOp[id] == NULL
  }

  lemma ResumeKeepsIff(s: Sched, t: nat)
    requires Inv(s) && Resumable(s, t)
    ensures Queueable(s, t) && (Inv(Woken(s, t)) <==> !Hot(s, t))
  {
    WokenKeepsIff(s, t);
  }

  /** sys_sched_event_ready with the event that has happened. */
  ghost function Readied(s: Sched, t: nat, ev: int): Sched
    requires Queueable(s, t)
  {
    if s.evOp[t] != ev then s else Woken(Forgotten(s, t), t)
  }

  lemma ReadyKeepsIff(s: Sched, t: nat, ev: int)
    requires Inv(s) && t < |s.v.place| && ev != NULL
    ensures Queueable(s, t) && (Inv(Readied(s, t, ev)) <==> !(Hot(s, t) && s.evOp[t] == ev))
  {
    AtTask(s, t);
    RingsFit(s, t);
    if s.evOp[t] == ev {
      BitsKeepIff(s, Forgotten(s, t), t);
      WokenKeepsIff(Forgotten(s, t), t);
    }
  }

  /** sys_sched_event_added: the event is there, or NULL if it could not be added. */
  ghost function AddedTo(s: Sched, t: nat, ev: int): Sched
    requires Queueable(s, t)
  {
    var s1 := s.(evOp := s.evOp[t := ev], evAdded := s.evAdded[t := true]);
    if ev == NULL && s.suspended[t] then Readied(s1, t, NULL) else s1
  }

  /** An event has to find its task suspended, a failure must not find it so while it runs. */
  lemma AddedKeepsIff(s: Sched, t: nat, ev: int)
    requires Inv(s) && t < |s.v.place|
    ensures Queueable(s, t)
    ensures Inv(AddedTo(s, t, ev)) <==> if ev == NULL then !Hot(s, t) else s.suspended[t]
  {
    AtTask(s, t);
    RingsFit(s, t);
    var s1 := s.(evOp := s.evOp[t := ev], evAdded := s.evAdded[t := true]);
    BitsKeepIff(s, s1, t);
    if ev == NULL && s.suspended[t] {
      BitsKeepIff(s, Forgotten(s1, t), t);
      WokenKeepsIff(Forgotten(s1, t), t);
    }
  }
}
