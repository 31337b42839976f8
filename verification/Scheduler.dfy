/** The scheduler of src/thread/thread_sched.c with the stores the code makes; a task pointer is its id. */
module Scheduler {
  import opened Lists
  import opened Rings
  import opened SchedState
  import opened SchedSteps
  import opened SchedRuns

  class Scheduler {
    var co: seq<int>
    var prev: seq<int>
    var next: seq<int>
    var evOp: seq<int>
    var started: seq<bool>
    var suspended: seq<bool>
    var evAdded: seq<bool>
    var terminate: seq<bool>

    var active: int
    var free: int
    var ntasks: int
    var tick: nat
    var bufMax: nat

    ghost var v: View

    ghost function Snap(): Sched
      reads this
    {
      Sched(co, prev, next, evOp, started, suspended, evAdded, terminate, active, free, ntasks, tick, bufMax, v)
    }

    constructor ()
      ensures Snap() == New() && Inv(Snap())
    {
      co, prev, next, evOp, started, suspended, evAdded, terminate := [], [], [], [], [], [], [], [];
      active, free, ntasks, tick, bufMax := NULL, NULL, 0, 0, 0;
      v := View([], [], [], {});
    }

    /** sched_tasklist_add on the ring with head `head`; returns the new head. */
    method TasklistAdd(head: int, t: nat) returns (head': int)
      requires Addable(prev, next, head, t)
      modifies `prev, `next
      ensures prev == AddPrev(old(prev), old(next), head, t) && next == AddNext(old(prev), old(next), head, t)
      ensures head' == AddHead(head, t)
    {
      if head != NULL {
        var headPrev: nat := prev[head];
        next := next[headPrev := t];
        prev := prev[t := prev[head]];
        prev := prev[head := t];
        next := next[t := head];
        head' := head;
      } else {
        prev, next := prev[t := t], next[t := t];
        head' := t;
      }
    }

    /** sched_tasklist_del on the ring with head `head`; returns the new head. */
    method TasklistDel(head: int, t: nat) returns (head': int)
      requires Removable(prev, next, t)
      modifies `prev, `next
      ensures prev == DelPrev(old(prev), old(next), t) && next == DelNext(old(prev), old(next), t)
      ensures head' == DelHead(old(next), head, t)
    {
      head' := head;
      if t != next[t] {
        var taskPrev, taskNext: nat := prev[t], next[t];
        prev := prev[taskNext := taskPrev];
        next := next[taskPrev := taskNext];
        if head == t {
          head' := taskNext;
        }
      } else {
        head' := NULL;
      }
    }

    /** sched_task_alloc, and the clearing of the task by its caller; NULL if the buffer could not be made larger. */
    method TaskAlloc(coroutine: int, memory: bool) returns (t: int)
      requires Allocable(Snap())
      modifies this
      ensures (Snap(), t) == Alloc(old(Snap()), coroutine, memory)
    {
      if free != NULL {
        t := TaskReuse(coroutine);
      } else {
        if |co| == bufMax {
          if !memory {
            return NULL;
          }
          bufMax := if bufMax > 0 then bufMax * 2 else BUF_MIN;
        }
        t := |co|;
        TaskCarve(coroutine);
      }
    }

    /** The head of the free ring. */
    method TaskReuse(coroutine: int) returns (t: nat)
      requires Reusable(Snap())
      modifies this
      ensures t == old(v.fr[0]) && Snap() == Cleared(TakeFree(old(Snap())), t, coroutine)
    {
      ghost var s := Snap();
      t := free;
      free := TasklistDel(free, t);
      ntasks := ntasks + 1;
      v := TakeFree(s).v;
      Clear(t, coroutine);
    }

    /** A slot not used before. */
    method TaskCarve(coroutine: int)
      requires Sized(Snap())
      modifies this
      ensures Snap() == Carve(old(Snap()), coroutine).(bufMax := old(bufMax))
    {
      ghost var s := Snap();
      ntasks := ntasks + 1;
      Extend(coroutine);
      v := Carve(s, coroutine).v;
    }

    /** memset of a task that is used again. */
    method Clear(t: nat, coroutine: int)
      requires Sized(Snap()) && t < |co|
      modifies this
      ensures Snap() == Cleared(old(Snap()), t, coroutine)
    {
      ClearWords(t, coroutine);
      ClearBits(t);
    }

    method ClearWords(t: nat, coroutine: int)
      requires |co| == |prev| == |next| == |evOp| && t < |co|
      modifies `co, `prev, `next, `evOp
      ensures co == old(co)[t := coroutine] && prev == old(prev)[t := 0] && next == old(next)[t := 0]
      ensures evOp == old(evOp)[t := NULL]
    {
      co, prev, next, evOp := co[t := coroutine], prev[t := 0], next[t := 0], evOp[t := NULL];
    }

    method ClearBits(t: nat)
      requires |started| == |suspended| == |evAdded| == |terminate| && t < |started|
      modifies `started, `suspended, `evAdded, `terminate
      ensures started == old(started)[t := false] && suspended == old(suspended)[t := false]
      ensures evAdded == old(evAdded)[t := false] && terminate == old(terminate)[t := false]
    {
      started, suspended := started[t := false], suspended[t := false];
      evAdded, terminate := evAdded[t := false], terminate[t := false];
    }

    /** The next slot of the buffer comes into use, cleared. */
    method Extend(coroutine: int)
      modifies `co, `prev, `next, `evOp, `started, `suspended, `evAdded, `terminate
      ensures co == old(co) + [coroutine] && prev == old(prev) + [0] && next == old(next) + [0]
      ensures evOp == old(evOp) + [NULL] && started == old(started) + [false] && suspended == old(suspended) + [false]
      ensures evAdded == old(evAdded) + [false] && terminate == old(terminate) + [false]
    {
      co, prev, next, evOp := co + [coroutine], prev + [0], next + [0], evOp + [NULL];
      started, suspended := started + [false], suspended + [false];
      evAdded, terminate := evAdded + [false], terminate + [false];
    }

    /** sched_put; ntasks is counted with the allocation.  NULL if there is no memory for another task. */
    method Put(coroutine: int, memory: bool) returns (t: int)
      requires PutFits(Snap(), coroutine, memory)
      modifies this
      ensures (Snap(), t) == SchedSteps.Put(old(Snap()), coroutine, memory)
    {
      t := TaskAlloc(coroutine, memory);
      if t != NULL {
        v := Dropped(Snap(), t).v;
        AddActive(t);
      }
    }

    method AddActive(t: nat)
      requires Queueable(Snap(), t)
      modifies this
      ensures Snap() == Enqueue(old(Snap()), t)
    {
      ghost var s := Snap();
      active := TasklistAdd(active, t);
      v := Enqueue(s, t).v;
    }

    /** sched_task_del. */
    method TaskDel(t: nat)
      requires Freeable(Snap(), t)
      modifies this
      ensures Snap() == Discard(old(Snap()), t)
    {
      ghost var s := Snap();
      free := TasklistAdd(free, t);
      ntasks := ntasks - 1;
      v := Discard(s, t).v;
    }

    method TakeActive(t: nat)
      requires Takeable(Snap()) && t == v.act[0]
      modifies this
      ensures Snap() == Take(old(Snap()))
    {
      ghost var s := Snap();
      active := TasklistDel(active, t);
      v := Take(s).v;
    }

    /** sched_loop up to lua_resume: the id of the task to run, or NULL if it had to be terminated. */
    method Next() returns (running: int)
      requires PopFits(Snap())
      modifies this
      ensures Snap() == Pop(old(Snap()))
      ensures running == if old(terminate[v.act[0]]) then NULL else old(v.act[0])
    {
      var t: nat := active;
      TakeActive(t);
      if terminate[t] {
        v := Dropped(Snap(), t).v;
        TaskDel(t);
        return NULL;
      }
      started := started[t := true];
      tick := tick + 1;
      running := t;
    }

    /** sched_loop from lua_resume on, `back` saying how the coroutine came back. */
    method Finish(t: nat, back: Back)
      requires FinishFits(Snap(), t)
      modifies this
      ensures Snap() == SchedSteps.Finish(old(Snap()), t, back)
    {
      v := Dropped(Snap(), t).v;
      if back.Yields? && !terminate[t] {
        if !suspended[t] {
          AddActive(t);
        } else {
          v := v.(place := v.place[t := Parked]);
        }
      } else {
        TaskDel(t);
      }
    }

    /** sched_suspend up to lua_yield; false when the task waits for an event. */
    method Suspend(t: nat) returns (ok: bool)
      requires Sized(Snap()) && t < |co|
      modifies `suspended
      ensures Snap() == Marked(old(Snap()), t, Suspending) && ok == (evOp[t] == NULL)
    {
      ok := evOp[t] == NULL;
      if ok {
        suspended := suspended[t := true];
      }
    }

    /**
     sched_event_add: the event is added at once, as `handle` or NULL if that failed, or it is `later`, by the
     thread that polls, and `handle` is the operation.  False when the task does not wait.
     */
    method WaitEvent(t: nat, later: bool, handle: int) returns (ok: bool)
      requires Queueable(Snap(), t) && (later ==> handle != NULL)
      modifies this
      ensures Snap() == Marked(old(Snap()), t, if later then Pending(handle) else Waiting(handle))
      ensures ok == if later then !(old(evAdded[t]) && old(evOp[t]) == NULL) else handle != NULL
    {
      if !later && handle == NULL {
        return false;
      }
      if !later {
        EventAdded(t, handle);
      }
      suspended := suspended[t := true];
      if !evAdded[t] {
        evOp := evOp[t := handle];
      } else if evOp[t] == NULL {
        evAdded := evAdded[t := false];
        suspended := suspended[t := false];
        return false;
      }
      ok := true;
    }

    /** sched_terminate; returns what the event queue has to forget, or NULL. */
    method Terminate(id: int) returns (cancelled: int)
      requires Sized(Snap()) && (0 <= id < |co| ==> Queueable(Snap(), id))
      modifies this
      ensures 0 <= id < old(|co|) ==> Snap() == Terminated(old(Snap()), id) && cancelled == old(evOp[id])
      ensures !(0 <= id < old(|co|)) ==> Snap() == old(Snap()) && cancelled == NULL
    {
      cancelled := NULL;
      if 0 <= id < |co| {
        terminate := terminate[id := true];
        if suspended[id] {
          suspended := suspended[id := false];
          AddActive(id);
        }
        if evOp[id] != NULL {
          cancelled := evOp[id];
          evOp, evAdded := evOp[id := NULL], evAdded[id := false];
        }
      }
    }

    /** sched_resume; false when no suspended task has this id. */
    method Resume(id: int) returns (ok: bool)
      requires Sized(Snap()) && (0 <= id < |co| ==> Queueable(Snap(), id))
      modifies this
      ensures ok == Resumable(old(Snap()), id)
      ensures if ok then Queueable(old(Snap()), id) && Snap() == Woken(old(Snap()), id) else Snap() == old(Snap())
    {
      ok := 0 <= id < |co| && suspended[id] && evOp[id] == NULL;
      if ok {
        AddActive(id);
        suspended := suspended[id := false];
      }
    }

    /** sys_sched_event_ready. */
    method EventReady(t: nat, ev: int)
      requires Queueable(Snap(), t)
      modifies this
      ensures Snap() == Readied(old(Snap()), t, ev)
    {
      if evOp[t] != ev {
        return;
      }
      evOp, evAdded := evOp[t := NULL], evAdded[t := false];
      suspended := suspended[t := false];
      AddActive(t);
    }

    /** sys_sched_event_added. */
    method EventAdded(t: nat, ev: int)
      requires Queueable(Snap(), t)
      modifies this
      ensures Snap() == AddedTo(old(Snap()), t, ev)
    {
      evOp, evAdded := evOp[t := ev], evAdded[t := true];
      if ev == NULL && suspended[t] {
        EventReady(t, NULL);
      }
    }
  }
}
