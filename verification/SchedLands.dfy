/**
 Where a task lands with every operation of the scheduler, in which bits, and that the others stay where they
 are; a finished coroutine never runs again.
 */
module SchedLands {
  import opened Lists
  import opened Rings
  import opened SchedState
  import opened SchedSteps
  import opened SchedRuns

  /** The bits of a task. */
  datatype Bits = Bits(evOp: int, started: bool, suspended: bool, evAdded: bool, terminate: bool)

  ghost function BitsOf(s: Sched, t: nat): Bits
    requires Sized(s) && t < |s.co|
  {
    Bits(s.evOp[t], s.started[t], s.suspended[t], s.evAdded[t], s.terminate[t])
  }

  /** All tasks but `t` keep their coroutine, their bits and their place, and no id goes away. */
  ghost predicate OthersStay(s: Sched, r: Sched, t: nat) {
    && Sized(s) && Sized(r) && |s.co| <= |r.co|
    && forall x: nat {:trigger r.v.place[x]} {:trigger BitsOf(r, x)} :: x < |s.co| && x != t ==>
         && r.co[x] == s.co[x] && BitsOf(r, x) == BitsOf(s, x) && r.v.place[x] == s.v.place[x]
         && (x in r.v.held <==> x in s.v.held)
  }

  /** The task is the last of the active ring. */
  ghost predicate Queued(s: Sched, r: Sched, t: nat) {
    Stands(r, t, Active) && r.v.act == s.v.act + [t] && r.v.fr == s.v.fr && r.ntasks == s.ntasks
  }

  /** The task is the last of the free ring, and one task less is in use. */
  ghost predicate Freed(s: Sched, r: Sched, t: nat, act: seq<nat>) {
    Stands(r, t, Free) && r.v.act == act && r.v.fr == s.v.fr + [t] && r.ntasks == s.ntasks - 1
  }

  /** Both rings stay as they are. */
  ghost predicate RingsStay(s: Sched, r: Sched) {
    r.v.act == s.v.act && r.v.fr == s.v.fr && r.ntasks == s.ntasks && r.prev == s.prev && r.next == s.next
    && r.active == s.active && r.free == s.free
  }

  // ---------------------------------------------------------------- the loop

  /** sched_loop frees a task whose termination is pending; another one it runs. */
  lemma PopLands(s: Sched)
    requires Inv(s) && s.v.act != []
    ensures PopFits(s) && Sized(s) && s.v.act[0] < |s.co|
    ensures var t, r := s.v.act[0], Pop(s);
            && OthersStay(s, r, t) && r.co == s.co && r.active == At(s.v.act, 1)
            && if s.terminate[t] then Freed(s, r, t, s.v.act[1..]) && r.tick == s.tick && BitsOf(r, t) == BitsOf(s, t)
               else
                 && Stands(r, t, Running) && r.v.act == s.v.act[1..] && r.v.fr == s.v.fr && r.ntasks == s.ntasks
                 && BitsOf(r, t) == BitsOf(s, t).(started := true) && r.tick == s.tick + 1
  {
    PopKeeps(s);
    Shape(s);
    AtTask(s, s.v.act[0]);
    EmptyIff(Pop(s));
  }

  /**
   A coroutine that returns, fails or is to be terminated is freed, and its task is the last of the free ring.
   One that yields is parked if it is suspended, and else the last of the active ring.
   */
  lemma FinishLands(s: Sched, t: nat, back: Back)
    requires Inv(s) && Stands(s, t, Running)
    ensures FinishFits(s, t) && Sized(s) && t < |s.co|
    ensures var r := Finish(s, t, back);
            && OthersStay(s, r, t) && r.co == s.co && r.tick == s.tick && BitsOf(r, t) == BitsOf(s, t) && t !in r.v.held
            && if !back.Yields? || s.terminate[t] then Freed(s, r, t, s.v.act)
               else if s.suspended[t] then Stands(r, t, Parked) && RingsStay(s, r)
               else Queued(s, r, t)
  {
    FinishKeepsIff(s, t, back);
    AtTask(s, t);
  }

  // ---------------------------------------------------------------- sched_put

  /** There is no memory for another task if and only if none is free, the buffer is full and it cannot grow. */
  lemma PutLands(s: Sched, co: int, memory: bool)
    requires Inv(s)
    ensures PutFits(s, co, memory)
    ensures var (r, t) := Put(s, co, memory);
            && (t == NULL <==> s.v.fr == [] && |s.co| == s.bufMax && !memory)
            && if t == NULL then r == s
               else
                 && t >= 0 && OthersStay(s, r, t) && t < |r.co| && r.co[t] == co
                 && BitsOf(r, t) == Bits(NULL, false, false, false, false)
                 && Stands(r, t, Active) && r.v.act == s.v.act + [t as nat] && r.ntasks == s.ntasks + 1
                 && (if s.v.fr != [] then t == s.v.fr[0] && r.v.fr == s.v.fr[1..] && |r.co| == |s.co|
                     else t == |s.co| && r.v.fr == [] && |r.co| == |s.co| + 1)
                 && r.bufMax == if s.v.fr != [] || |s.co| < s.bufMax then s.bufMax else if s.bufMax > 0 then 2 * s.bufMax else 32
  {
    PutKeeps(s, co, memory);
    Shape(s);
    EmptyIff(s);
    if s.v.fr != [] { AtTask(s, s.v.fr[0]); }
  }

  // ---------------------------------------------------------------- waking up

  /** sched_terminate: the task is to be terminated, waits for nothing, and is queued if it was suspended. */
  lemma TerminateLands(s: Sched, t: nat)
    requires Inv(s) && t < |s.v.place|
    ensures Queueable(s, t)
    ensures var r := Terminated(s, t);
            && OthersStay(s, r, t) && r.co == s.co
            && BitsOf(r, t) == Bits(NULL, s.started[t], false, s.evAdded[t] && s.evOp[t] == NULL, true)
            && if s.suspended[t] then Queued(s, r, t) else r.v == s.v && RingsStay(s, r)
  {
    RingsFit(s, t);
    AtTask(s, t);
  }

  /** sched_resume of a suspended task. */
  lemma ResumeLands(s: Sched, t: nat)
    requires Inv(s) && Resumable(s, t)
    ensures Queueable(s, t)
    ensures var r := Woken(s, t);
            OthersStay(s, r, t) && r.co == s.co && BitsOf(r, t) == BitsOf(s, t).(suspended := false) && Queued(s, r, t)
  {
    RingsFit(s, t);
  }

  /** The event waited for wakes its task, any other changes nothing. */
  lemma ReadyLands(s: Sched, t: nat, ev: int)
    requires Inv(s) && t < |s.v.place|
    ensures Queueable(s, t)
    ensures var r := Readied(s, t, ev);
            if s.evOp[t] != ev then r == s
            else
              && OthersStay(s, r, t) && r.co == s.co && Queued(s, r, t)
              && BitsOf(r, t) == Bits(NULL, s.started[t], false, false, s.terminate[t])
  {
    RingsFit(s, t);
  }

  /** An event added is waited for from now on; one that could not be added wakes a suspended task. */
  lemma AddedLands(s: Sched, t: nat, ev: int)
    requires Inv(s) && t < |s.v.place|
    ensures Queueable(s, t)
    ensures var r := AddedTo(s, t, ev);
            && OthersStay(s, r, t) && r.co == s.co
            && if ev == NULL && s.suspended[t]
               then Queued(s, r, t) && BitsOf(r, t) == Bits(NULL, s.started[t], false, false, s.terminate[t])
               else RingsStay(s, r) && r.v == s.v && BitsOf(r, t) == BitsOf(s, t).(evOp := ev, evAdded := true)
  {
    RingsFit(s, t);
  }

  /** A task that marks itself keeps its place; it then is suspended, but for the errors of the calls. */
  lemma MarkLands(s: Sched, t: nat, mark: Mark)
    requires Inv(s) && Stands(s, t, Running)
    ensures Sized(s) && t < |s.co|
    ensures var r := Marked(s, t, mark);
            && OthersStay(s, r, t) && r.co == s.co && r.v == s.v && RingsStay(s, r)
            && match mark
               case Suspending => r.suspended[t] && r.evOp == s.evOp
               case Waiting(ev) => if ev == NULL then r == s else r.suspended[t] && r.evOp[t] == ev && r.evAdded[t]
               case Pending(op) =>
                 if op == NULL then r == s
                 else if s.evAdded[t] then r.evOp == s.evOp && (r.suspended[t] <==> s.evOp[t] != NULL)
                 else r.suspended[t] && r.evOp[t] == op && !r.evAdded[t]
  {
    AtTask(s, t);
  }

  // ---------------------------------------------------------------- finished for good

  /** sched_put gives this id out. */
  ghost predicate GivesOut(s: Sched, op: Op, t: nat)
    requires Inv(s)
  {
    op.PutOp? && (PutKeeps(s, op.co, op.memory); Put(s, op.co, op.memory).1 == t)
  }

  lemma FreeStays(s: Sched, op: Op, t: nat)
    requires Inv(s) && Allowed(s, op) && Stands(s, t, Free) && !GivesOut(s, op, t)
    ensures Stands(Do(s, op), t, Free)
  {
    AtTask(s, t);
    match op {
      case PutOp(co, memory) => PutLands(s, co, memory);
      case PopOp =>
        if s.v.act != [] {
          PopLands(s);
          AtTask(s, s.v.act[0]);
        }
      case MarkOp(x, mark) => if Stands(s, x, Running) { MarkLands(s, x, mark); }
      case FinishOp(x, back) => if Stands(s, x, Running) { FinishLands(s, x, back); }
      case TerminateOp(id) => if 0 <= id < |s.co| { TerminateLands(s, id); }
      case ResumeOp(id) => if Resumable(s, id) { ResumeLands(s, id); }
      case AddedOp(x, ev) => if x < |s.co| { AddedLands(s, x, ev); }
      case ReadyOp(x, ev) => if x < |s.co| && ev != NULL { ReadyLands(s, x, ev); }
    }
  }

  /** The id is not given out again in the course of the run. */
  ghost predicate NotReused(s: Sched, ops: seq<Op>, t: nat)
    requires Inv(s) && Guarded(s, ops)
    decreases |ops|
  {
    ops == [] || (!GivesOut(s, ops[0], t) && (StepKeepsIff(s, ops[0]); NotReused(Do(s, ops[0]), ops[1..], t)))
  }

  lemma {:induction false} FreeUntilPut(s: Sched, ops: seq<Op>, t: nat)
    requires Inv(s) && Guarded(s, ops) && Stands(s, t, Free) && NotReused(s, ops, t)
    ensures Stands(Run(s, ops), t, Free)
    decreases |ops|
  {
    if ops != [] {
      StepKeepsIff(s, ops[0]);
      FreeStays(s, ops[0], t);
      FreeUntilPut(Do(s, ops[0]), ops[1..], t);
    }
  }

  /**
   A coroutine that has returned or failed, or was to be terminated when it yielded, never runs again: until
   sched_put gives its id to another one, its task is in the free ring and in no worker's hands.
   */
  lemma FinishedNeverRuns(s: Sched, t: nat, back: Back, s1: Sched, ops: seq<Op>)
    requires Inv(s) && Stands(s, t, Running) && t < |s.terminate| && (!back.Yields? || s.terminate[t])
    requires Allowed(s, FinishOp(t, back)) && s1 == Do(s, FinishOp(t, back))
    requires Inv(s1) && Guarded(s1, ops) && NotReused(s1, ops, t)
    ensures t in Run(s1, ops).v.fr && t !in Run(s1, ops).v.act && t !in Run(s1, ops).v.held
  {
    FinishLands(s, t, back);
    FreeUntilPut(s1, ops, t);
    AtTask(Run(s1, ops), t);
  }
}
