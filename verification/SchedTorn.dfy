/**
 What becomes of a task when the guard of SchedRuns is not kept: it is in two places, at once or as soon as
 it is woken.  Runs that lead there.
 */
module SchedTorn {
  import opened Lists
  import opened Rings
  import opened SchedState
  import opened SchedSteps
  import opened SchedRuns

  /** How often a task is in a ring or in a worker's hands. */
  ghost function Times(s: Sched, t: nat): nat {
    multiset(s.v.act)[t] + multiset(s.v.fr)[t] + if t in s.v.held then 1 else 0
  }

  lemma {:induction false} DistinctOnce(r: seq<nat>, t: nat)
    requires Distinct(r)
    ensures multiset(r)[t] == if t in r then 1 else 0
    decreases |r|
  {
    if r != [] {
      var n := |r| - 1;
      assert r == r[..n] + [r[n]];
      DistinctOnce(r[..n], t);
    }
  }

  /** In order every task is in one such place, or parked. */
  lemma OrderIsOnce(s: Sched, t: nat)
    requires Inv(s) && t < |s.v.place|
    ensures Times(s, t) == if Stands(s, t, Parked) then 0 else 1
  {
    AtTask(s, t);
    assert Holds(ActiveRing, s) && Holds(FreeRing, s);
    DistinctOnce(s.v.act, t);
    DistinctOnce(s.v.fr, t);
  }

  /** The task is in two places, or will be as soon as it is woken: terminated by another task, or by its event. */
  ghost predicate Torn(s: Sched, t: nat) {
    || Times(s, t) >= 2
    || (Queueable(s, t) && t !in s.v.held && Times(Terminated(s, t), t) >= 2)
    || (Queueable(s, t) && !s.suspended[t] && s.evOp[t] != NULL && Times(Readied(s, t, s.evOp[t]), t) >= 2)
  }

  lemma OrderIsWhole(s: Sched, t: nat)
    requires Inv(s) && t < |s.v.place|
    ensures !Torn(s, t)
  {
    AtTask(s, t);
    OrderIsOnce(s, t);
    if t !in s.v.held {
      TerminateKeepsIff(s, t);
      OrderIsOnce(Terminated(s, t), t);
    }
  }

  /** The task an operation is about. */
  ghost function Of(op: Op): int {
    match op
    case PutOp(_, _) => NULL
    case PopOp => NULL
    case MarkOp(t, _) => t
    case FinishOp(t, _) => t
    case TerminateOp(id) => id
    case ResumeOp(id) => id
    case AddedOp(t, _) => t
    case ReadyOp(t, _) => t
  }

  lemma EnqueuedTimes(s: Sched, t: nat)
    requires Queueable(s, t)
    ensures Times(Enqueue(s, t), t) == Times(s, t) + 1
  {
  }

  lemma WokenTimes(s: Sched, t: nat)
    requires Queueable(s, t)
    ensures Times(Woken(s, t), t) == Times(s, t) + 1
  {
    EnqueuedTimes(s.(suspended := s.suspended[t := false]), t);
  }

  lemma TerminatedTimes(s: Sched, t: nat)
    requires Queueable(s, t) && s.suspended[t]
    ensures Times(Terminated(s, t), t) == Times(s, t) + 1
  {
    WokenTimes(s.(terminate := s.terminate[t := true]), t);
  }

  lemma HotOnce(s: Sched, t: nat)
    requires Inv(s) && Hot(s, t)
    ensures Times(s, t) == 1 && t in s.v.held
  {
    AtTask(s, t);
    OrderIsOnce(s, t);
  }

  /** Waking a task that is still running. */
  lemma WakingTears(s: Sched, op: Op, t: nat)
    requires Inv(s) && Hot(s, t) && t == Of(op) && !Allowed(s, op) && !op.FinishOp?
    ensures Times(Do(s, op), t) >= 2
  {
    AtTask(s, t);
    RingsFit(s, t);
    HotOnce(s, t);
    match op {
      case TerminateOp(_) => TerminatedTimes(s, t);
      case ResumeOp(_) => WokenTimes(s, t);
      case AddedOp(_, ev) =>
        WokenTimes(Forgotten(s.(evOp := s.evOp[t := ev], evAdded := s.evAdded[t := true]), t), t);
      case ReadyOp(_, ev) => WokenTimes(Forgotten(s, t), t);
    }
  }

  /** A marked task is freed: it can still be woken. */
  lemma FreeingTears(s: Sched, t: nat, back: Back)
    requires Inv(s) && Hot(s, t) && !Clean(s, t, back)
    ensures Torn(Do(s, FinishOp(t, back)), t)
  {
    AtTask(s, t);
    RingsFit(s, t);
    HotOnce(s, t);
    var s1 := Do(s, FinishOp(t, back));
    assert s1 == Discard(Dropped(s, t), t);
    FreedTimes(Dropped(s, t), t);
    TerminatedTimes(s1, t);
  }

  lemma FreedTimes(s: Sched, t: nat)
    requires Freeable(s, t)
    ensures Times(Discard(s, t), t) == Times(s, t) + 1
  {
  }

  /** An event is noted for a task that does not wait. */
  lemma AddingTears(s: Sched, t: nat, ev: int)
    requires Inv(s) && t < |s.v.place| && t < |s.suspended| && !s.suspended[t] && ev != NULL
    ensures Torn(Do(s, AddedOp(t, ev)), t)
  {
    AtTask(s, t);
    RingsFit(s, t);
    OrderIsOnce(s, t);
    var s1 := Do(s, AddedOp(t, ev));
    WokenTimes(Forgotten(s1, t), t);
  }

  /** An operation tears the task it is about if and only if the guard does not allow it. */
  lemma TearsIff(s: Sched, op: Op, t: nat)
    requires Inv(s) && t == Of(op) && t < |s.v.place|
    ensures Torn(Do(s, op), t) <==> !Allowed(s, op)
  {
    Shape(s);
    StepKeepsIff(s, op);
    if Allowed(s, op) {
      OrderIsWhole(Do(s, op), t);
    } else if op.FinishOp? {
      FreeingTears(s, t, op.back);
    } else if Hot(s, t) {
      WakingTears(s, op, t);
    } else {
      AddingTears(s, t, op.ev);
    }
  }

  // ---------------------------------------------------------------- runs that break it

  /** A guarded run goes on. */
  lemma {:induction false} GoesOn(s: Sched, ops: seq<Op>, op: Op)
    requires Inv(s) && Guarded(s, ops) && Allowed(Run(s, ops), op)
    ensures Guarded(s, ops + [op]) && Run(s, ops + [op]) == Do(Run(s, ops), op)
    decreases |ops|
  {
    if ops == [] {
      StepKeepsIff(s, op);
      assert [op][1..] == [];
    } else {
      StepKeepsIff(s, ops[0]);
      assert (ops + [op])[1..] == ops[1..] + [op];
      GoesOn(Do(s, ops[0]), ops[1..], op);
    }
  }

  /** The run leads to this state. */
  ghost predicate Leads(ops: seq<Op>, s: Sched) {
    Guarded(New(), ops) && s == Run(New(), ops)
  }

  lemma LeadsOn(ops: seq<Op>, s: Sched, op: Op, s': Sched)
    requires Leads(ops, s) && Inv(s) && Allowed(s, op) && s' == Do(s, op)
    ensures Leads(ops + [op], s') && Inv(s')
  {
    GoesOn(New(), ops, op);
    StepKeepsIff(s, op);
  }

  /** One task, running, with these bits. */
  ghost function Lone(evOp: int, suspended: bool, evAdded: bool, terminate: bool): Sched {
    Sched([7], [0], [0], [evOp], [true], [suspended], [evAdded], [terminate], NULL, NULL, 1, 1, BUF_MIN,
          View([Running], [], [], {0}))
  }

  lemma OneRunning() returns (ops: seq<Op>)
    ensures Leads(ops, Lone(NULL, false, false, false)) && Inv(Lone(NULL, false, false, false))
  {
    var s := Do(New(), PutOp(7, true));
    LeadsOn([], New(), PutOp(7, true), s);
    assert s.v.act == [0] && s.prev == [0] && s.next == [0];
    var s' := Lone(NULL, false, false, false);
    var u := Do(s, PopOp);
    assert u.v.act == [] && u.v.place == [Running] && u.v.held == {0} && u.started == [true] && u.prev == [0];
    LeadsOn([] + [PutOp(7, true)], s, PopOp, s');
    ops := [] + [PutOp(7, true)] + [PopOp];
  }

  lemma OneMarked(terminate: bool) returns (ops: seq<Op>)
    ensures Leads(ops, Lone(NULL, true, false, terminate)) && Inv(Lone(NULL, true, false, terminate))
  {
    ops := OneRunning();
    if terminate {
      LeadsOn(ops, Lone(NULL, false, false, false), TerminateOp(0), Lone(NULL, false, false, true));
      ops := ops + [TerminateOp(0)];
    }
    LeadsOn(ops, Lone(NULL, false, false, terminate), MarkOp(0, Suspending), Lone(NULL, true, false, terminate));
    ops := ops + [MarkOp(0, Suspending)];
  }

  /** A task that terminates itself and then suspends, and is terminated once more: both rings start with it. */
  lemma UnguardedRunCorrupts() returns (ops: seq<Op>, s: Sched, t: Sched)
    ensures Leads(ops, s) && FinishFits(s, 0) && !Clean(s, 0, Yields)
    ensures Queueable(Finish(s, 0, Yields), 0) && t == Terminated(Finish(s, 0, Yields), 0)
    ensures t.active == 0 && t.free == 0
  {
    ops := OneMarked(true);
    s := Lone(NULL, true, false, true);
    t := Terminated(Finish(s, 0, Yields), 0);
  }

  /** A task that suspends, catches the error of lua_yield and returns, and is then terminated: the same. */
  lemma CaughtYieldCorrupts() returns (ops: seq<Op>, s: Sched, t: Sched)
    ensures Leads(ops, s) && FinishFits(s, 0) && !Clean(s, 0, Returns)
    ensures Queueable(Finish(s, 0, Returns), 0) && t == Terminated(Finish(s, 0, Returns), 0)
    ensures t.active == 0 && t.free == 0
  {
    ops := OneMarked(false);
    s := Lone(NULL, true, false, false);
    t := Terminated(Finish(s, 0, Returns), 0);
  }

  /** A task that suspends, catches the error, terminates itself and returns: the same. */
  lemma EarlyTerminateCorrupts() returns (ops: seq<Op>, s: Sched, t: Sched)
    ensures Leads(ops, s) && Queueable(s, 0) && !Allowed(s, TerminateOp(0))
    ensures FinishFits(Terminated(s, 0), 0) && t == Finish(Terminated(s, 0), 0, Returns)
    ensures t.active == 0 && t.free == 0
  {
    ops := OneMarked(false);
    s := Lone(NULL, true, false, false);
    t := Finish(Terminated(s, 0), 0, Returns);
  }

  /** The active ring is empty though the task 1 is neither running nor suspended nor free. */
  ghost predicate OneIsLost(s: Sched) {
    && s.active == NULL && s.free == NULL && |s.co| == 2 && |s.suspended| == 2 && !s.suspended[1]
    && s.v.held == {0}
  }

  /** Two tasks in the active ring. */
  ghost predicate TwoQueued(s: Sched) {
    && Sized(s) && |s.co| == 2 && s.prev == [1, 0] && s.next == [1, 0] && s.active == 0 && s.free == NULL
    && s.v.act == [0, 1] && s.v.held <= {0} && !s.suspended[1] && !s.terminate[0]
  }

  /** The first of them is queued once more and then taken. */
  lemma QueuedTwice(s: Sched)
    requires TwoQueued(s)
    ensures Queueable(s, 0) && PopFits(Enqueue(s, 0)) && OneIsLost(Pop(Enqueue(s, 0)))
  {
    var u := Enqueue(s, 0);
    assert u.prev == [0, 0] && u.next == [0, 0] && u.v.act[0] == 0;
    assert s.v.held + {0} == {0};
  }

  /** A task that suspends, catches the error, resumes itself, puts another one and yields: that one never runs. */
  lemma EarlyResumeLosesTask() returns (ops: seq<Op>, s: Sched, t: Sched)
    ensures Leads(ops, s) && Resumable(s, 0) && !Allowed(s, ResumeOp(0)) && Queueable(s, 0)
    ensures PutFits(Woken(s, 0), 8, true) && Put(Woken(s, 0), 8, true).1 == 1
    ensures var s1 := Put(Woken(s, 0), 8, true).0;
            && FinishFits(s1, 0) && PopFits(Finish(s1, 0, Yields)) && t == Pop(Finish(s1, 0, Yields))
    ensures OneIsLost(t)
  {
    ops := OneMarked(false);
    s := Lone(NULL, true, false, false);
    var s1 := Put(Woken(s, 0), 8, true).0;
    assert s1.prev == [1, 0] && s1.next == [1, 0] && s1.v.act == [0, 1];
    QueuedTwice(Dropped(s1, 0));
    t := Pop(Finish(s1, 0, Yields));
  }

  /** One task in the active ring, and another behind it. */
  ghost function Two(): Sched {
    Sched([7, 8], [1, 0], [1, 0], [NULL, NULL], [true, false], [false, false], [false, false], [false, false],
          0, NULL, 2, 1, BUF_MIN, View([Active, Active], [0, 1], [], {}))
  }

  /**
   While another thread polls, a task starts to wait, catches the error of lua_yield, gets its first event
   added by that thread, starts to wait once more and yields.
   */
  lemma WaitsTwice() returns (ops: seq<Op>, s: Sched)
    ensures s == Lone(50, true, true, false).(v := View([Parked], [], [], {})) && Leads(ops, s) && Inv(s)
  {
    ops := OneRunning();
    LeadsOn(ops, Lone(NULL, false, false, false), MarkOp(0, Pending(5)), Lone(5, true, false, false));
    ops := ops + [MarkOp(0, Pending(5))];
    LeadsOn(ops, Lone(5, true, false, false), AddedOp(0, 50), Lone(50, true, true, false));
    ops := ops + [AddedOp(0, 50)];
    LeadsOn(ops, Lone(50, true, true, false), MarkOp(0, Pending(6)), Lone(50, true, true, false));
    ops := ops + [MarkOp(0, Pending(6))];
    s := Lone(50, true, true, false).(v := View([Parked], [], [], {}));
    assert {0} - {0} == {};
    LeadsOn(ops, Lone(50, true, true, false), FinishOp(0, Yields), s);
    ops := ops + [FinishOp(0, Yields)];
  }

  /** The first event wakes it, and another task is put behind it. */
  lemma TwoEvents() returns (ops: seq<Op>)
    ensures Leads(ops, Two()) && Inv(Two())
  {
    var s;
    ops, s := WaitsTwice();
    var s1 := Lone(NULL, false, false, false).(active := 0, v := View([Active], [0], [], {}));
    LeadsOn(ops, s, ReadyOp(0, 50), s1);
    ops := ops + [ReadyOp(0, 50)];
    PutBehind(s1);
    LeadsOn(ops, s1, PutOp(8, true), Two());
    ops := ops + [PutOp(8, true)];
  }

  lemma PutBehind(s: Sched)
    requires s == Lone(NULL, false, false, false).(active := 0, v := View([Active], [0], [], {})) && Inv(s)
    ensures Do(s, PutOp(8, true)) == Two()
  {
    PutKeeps(s, 8, true);
    var s1 := Put(s, 8, true).0;
    assert s1.prev == [1, 0] && s1.next == [1, 0] && s1.v.act == [0, 1] && s1.v.held == {};
  }

  /** The second event finds its task no longer waiting: it is queued twice, and the one behind it never runs. */
  lemma StaleEventLosesTask() returns (ops: seq<Op>, t: Sched)
    ensures Leads(ops, Two()) && Queueable(Two(), 0) && !Allowed(Two(), AddedOp(0, 60))
    ensures var s1 := AddedTo(Two(), 0, 60);
            && Queueable(s1, 0) && PopFits(Readied(s1, 0, 60)) && t == Pop(Readied(s1, 0, 60))
    ensures OneIsLost(t)
  {
    ops := TwoEvents();
    var s1 := Forgotten(AddedTo(Two(), 0, 60), 0);
    QueuedTwice(s1.(suspended := s1.suspended[0 := false]));
    t := Pop(Readied(AddedTo(Two(), 0, 60), 0, 60));
  }
}
