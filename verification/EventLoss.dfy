/**
 Runs that lose a slot: the buffers are full but for one free slot; the path of a directory watch is no
 string; an error cuts off synchronous operations.
 */
module EventLoss {
  import opened Lists
  import opened TimeoutLists
  import opened EventSlots
  import opened EventState
  import opened EventIds
  import opened EventOps
  import opened EventCalls
  import opened EventRuns

  /** A timer that waits for ever. */
  const TIMER: Flags := NO_FLAGS.(timer := true)
  const ADD: Op := AddOp(Request(TIMER, TIMEOUT_INFINITE, true, Smooth))

  /** One slot is free, and the buffers allocated are those there may be. */
  ghost predicate Spare(s: State) {
    && Whole(s) && |s.v.free| == 1
    && s.bufIndex + BUF_IDX <= BUF_MAX + 1 && (s.bufNevents > 0 ==> s.bufIndex + BUF_IDX <= BUF_MAX)
  }

  /** Of a new event and the slot reserved after it. */
  lemma AddsTwo(s: State, s1: State, p: nat)
    requires Whole(s) && CanAlloc(s) && Alloc(s) == (s1, p) && s1.v.free == [] && CanCarve(s1)
    ensures Whole(s1) && |Do(s, ADD).v.free| == 1
    ensures Do(s, ADD).bufIndex == Carve(s1).bufIndex && Do(s, ADD).bufNevents == Carve(s1).bufNevents
  {
    AllocKeeps(s);
    FreeEmptyIff(s1);
    TakenIsLoose(s1, p);
    var s2 := Reserve(s1).0;
    Shape(s2);
    AttachKeeps(s2, p, TIMER);
    Shape(Attach(s2, p, TIMER));
  }

  /** With room for another slot the next levq_add leaves one free again. */
  lemma AddSpares(s: State)
    requires Spare(s) && CanCarve(s)
    ensures Spare(Do(s, ADD))
    ensures (Do(s, ADD).bufIndex, Do(s, ADD).bufNevents) == (Carve(s).bufIndex, Carve(s).bufNevents)
    ensures (Do(s, ADD).bufIndex, Do(s, ADD).bufNevents)
            == if s.bufNevents == 0 then (s.bufIndex, 1) else NextSlot(s.bufIndex, s.bufNevents)
  {
    FreeEmptyIff(s);
    AllocKeeps(s);
    AddsTwo(s, Reuse(s), s.v.free[0]);
    NextSlotInside(s.bufIndex, s.bufNevents);
  }

  lemma FirstSpares(s: State, useMap: bool, now: int)
    requires s == Init(useMap, now) && Whole(s)
    ensures Spare(Do(s, ADD))
  {
    assert BufSize(0) == 64;
    CarveKeeps(s);
    AddsTwo(s, Carve(s), 0);
  }

  /** Without room the levq_add that takes the last slot loses it. */
  lemma LastLeaks(s: State)
    requires Spare(s) && !CanCarve(s)
    ensures Leaks(s, ADD, s.v.free[0])
  {
    FreeEmptyIff(s);
    AllocKeeps(s);
    FreeEmptyIff(Reuse(s));
  }

  lemma {:induction false} AddsLose(s: State) returns (ops: seq<Op>, p: nat)
    requires Spare(s)
    ensures Lost(s, ops, p)
    decreases BUF_MAX - s.bufIndex, BufSize(s.bufIndex) - s.bufNevents
  {
    if CanCarve(s) {
      AddSpares(s);
      var rest;
      rest, p := AddsLose(Do(s, ADD));
      ops := LostLater(s, rest, p);
    } else {
      LastLeaks(s);
      ops, p := [ADD], s.v.free[0];
    }
  }

  /** From a new queue calls of levq_add alone lead to the one that loses a slot. */
  lemma LossReachable(s: State, useMap: bool, now: int) returns (ops: seq<Op>, p: nat)
    requires s == Init(useMap, now) && Whole(s)
    ensures Lost(s, ops, p) && forall x: nat :: !IsTaken(s, x)
  {
    FirstSpares(s, useMap, now);
    var rest;
    rest, p := AddsLose(Do(s, ADD));
    ops := LostLater(s, rest, p);
  }

  lemma LostLater(s: State, rest: seq<Op>, p: nat) returns (ops: seq<Op>)
    requires Whole(s) && Lost(Do(s, ADD), rest, p)
    ensures Lost(s, ops, p)
  {
    ops := [ADD] + rest;
    assert ops[0] == ADD && ops[1..] == rest;
  }

  // ---------------------------------------------------------------- errors raised

  /** A directory watch whose path is no string. */
  const BAD_WATCH: Request := Request(NO_FLAGS, TIMEOUT_INFINITE, true, BadPath)

  /** In a new queue the slot of a directory watch with a bad path is lost. */
  lemma BadPathLoses(s: State, useMap: bool, now: int)
    requires s == Init(useMap, now) && Whole(s)
    ensures Lost(s, [AddOp(BAD_WATCH)], 0)
  {
    assert Alloc(s) == (Carve(s), 0);
  }

  /** One synchronous operation after another. */
  lemma TwoPending(s: State, s2: State, useMap: bool, now: int)
    requires s == Init(useMap, now) && Whole(s) && s2 == Do(Do(s, SyncOp(7)), SyncOp(8))
    ensures s2.v.sync == [1, 0] && s2.v.free == []
  {
    var s1 := Do(s, SyncOp(7));
    assert BufSize(0) == 64;
    assert Alloc(s) == (Carve(s), 0);
    assert s1.v.sync == [0] && s1.evFree == NULL;
    assert Alloc(s1) == (Carve(s1), 1);
  }

  /** The second of two pending operations is run first; if it raises an error, the slot of the first is lost. */
  lemma RaisingSyncLoses(s: State, useMap: bool, now: int)
    requires s == Init(useMap, now) && Whole(s)
    ensures Lost(s, [SyncOp(7), SyncOp(8), SyncProcessOp([Fails])], 0)
  {
    var ops := [SyncOp(7), SyncOp(8), SyncProcessOp([Fails])];
    var s1 := Do(s, ops[0]);
    var s2 := Do(s1, ops[1]);
    TwoPending(s, s2, useMap, now);
    DetachOpsKeeps(s2);
    assert FirstCall([Fails]) == Fails && 0 in [1, 0][1..];
    assert Leaks(s2, ops[2], 0);
    assert ops[1..][0] == ops[1] && ops[1..][1..] == [ops[2]] && Lost(s2, [ops[2]], 0);
    assert Lost(s1, ops[1..], 0);
  }
}
