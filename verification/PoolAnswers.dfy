/**
 What every step of the data pool answers: where the items of a put call land, what a get call returns, and
 that nothing is given up but by a put call whose wait has failed.
 */
module PoolAnswers {
  import opened PoolState
  import opened PoolRuns

  /** All calls but `w` are where they were. */
  ghost predicate OthersStay(p: Pool, q: Pool, w: nat) {
    forall x {:trigger x in q.place} {:trigger x in p.place} :: x != w ==>
      (x in q.place <==> x in p.place) && (x in p.place ==> q.place[x] == p.place[x])
  }

  /** The items of call `w` are offered if a reader waits and no other call offers, else they are stored last. */
  ghost predicate Lands(p: Pool, q: Pool, w: nat) {
    && w in q.place && OthersStay(p, q, w) && q.got == p.got && q.waiting == p.waiting
    && (if p.waiting != {} && p.L == NONE
        then q.place[w] == Offered && q.L == w && q.queue == p.queue
        else q.place[w] == Stored && q.L == p.L && q.queue == p.queue + [w])
  }

  lemma WaitingIff(p: Pool)
    requires Inv(p)
    ensures p.nwaits > 0 <==> p.waiting != {}
  {
    assert Holds(Waits, p);
  }

  lemma GoLands(p: Pool, w: nat)
    requires Inv(p) && Loose(p, w)
    ensures Lands(p, Go(p, w), w)
  {
    WaitingIff(p);
  }

  /** dpool_put with room offers or stores its items; without room it waits. */
  lemma PutLands(p: Pool, w: nat, items: seq<int>)
    requires Inv(p) && w !in p.place && items != []
    ensures var q := Do(p, PutOp(w, items));
            && q.data == p.data[w := items]
            && if |p.queue| < p.max then Lands(p, q, w)
               else w in q.place && q.place[w] == Blocked && q.queue == p.queue && q.L == p.L && OthersStay(p, q, w)
  {
    assert Holds(Table, p);
    NewcomerKeeps(p, w, items);
    var p1 := Newcomer(p, w, items);
    if p1.n < p1.max { GoLands(p1, w); }
  }

  /** So does one that has waited, unless the wait has failed: then, and only then, it gives its items up. */
  lemma PutWakeLands(p: Pool, w: nat, ok: bool)
    requires Inv(p) && Loose(p, w)
    ensures var q := Do(p, PutWakeOp(w, ok));
            && q.data == p.data
            && if !ok then w in q.place && q.place[w] == Failed && q.queue == p.queue && OthersStay(p, q, w)
               else if |p.queue| < p.max then Lands(p, q, w) else q == p
  {
    assert Holds(Table, p);
    if ok && p.n < p.max { GoLands(p, w); }
  }

  /** An offer that no reader has taken is stored last; one taken stays with its reader. */
  lemma PutResumeLands(p: Pool)
    requires Inv(p) && p.L != NONE
    ensures p.L in p.place
    ensures var w, q := p.L, Do(p, PutResumeOp);
            && q.data == p.data && q.L == NONE && q.got == p.got && OthersStay(p, q, w) && w in q.place
            && if p.place[w] == Offered then q.place[w] == Stored && q.queue == p.queue + [w as nat]
               else q.place == p.place && q.queue == p.queue
  {
    assert Holds(Offer, p);
  }

  /** Get call `r` has the items of the oldest stored call. */
  ghost predicate Receives(p: Pool, q: Pool, r: nat) {
    && p.queue != [] && p.queue[0] in p.data && p.queue[0] in q.place
    && q.place[p.queue[0]] == Handed(r) && OthersStay(p, q, p.queue[0]) && q.queue == p.queue[1..]
    && q.got == p.got[r := p.data[p.queue[0]]]
  }

  ghost predicate Waiting(p: Pool, q: Pool, r: nat) {
    q.place == p.place && q.queue == p.queue && q.got == p.got && r in q.waiting && r !in q.got
  }

  lemma RoundReceives(p: Pool, r: nat)
    requires Inv(p) && IsNewReader(p, r)
    ensures var q := GetRound(p, r);
            && q.data == p.data && q.L == p.L
            && if p.queue != [] then Receives(p, q, r) && q.waiting == p.waiting
               else Waiting(p, q, r) && q.waiting == p.waiting + {r}
  {
    assert Holds(Table, p);
    if p.n > 0 { TakeKeeps(p, r); }
  }

  /** dpool_get returns the items of the oldest stored call, or waits if and only if none is stored. */
  lemma GetReceives(p: Pool, r: nat)
    requires Inv(p) && IsNewReader(p, r)
    ensures var q := Do(p, GetOp(r));
            && q.data == p.data && q.L == p.L
            && if p.queue != [] then Receives(p, q, r) && q.waiting == p.waiting
               else Waiting(p, q, r) && q.waiting == p.waiting + {r}
  {
    RoundReceives(p, r);
  }

  /** One that has waited returns the items offered, or else what dpool_get returns; after a failed wait nothing. */
  lemma GetWakeReceives(p: Pool, r: nat, ok: bool)
    requires Inv(p) && r in p.waiting
    ensures p.nput != 0 ==> p.L in p.data
    ensures var q := Do(p, GetWakeOp(r, ok));
            && q.data == p.data && q.L == p.L
            && if !ok then q.place == p.place && q.queue == p.queue && q.got == p.got && q.waiting == p.waiting - {r}
               else if p.nput != 0 then
                 && p.L in q.place && q.place[p.L] == Handed(r) && OthersStay(p, q, p.L) && q.queue == p.queue
                 && q.got == p.got[r := p.data[p.L]] && q.waiting == p.waiting - {r}
               else if p.queue != [] then Receives(p, q, r) && q.waiting == p.waiting - {r}
               else Waiting(p, q, r) && q.waiting == p.waiting
  {
    assert Holds(Offer, p);
    AwakeKeeps(p, r);
    var p1 := Awake(p, r);
    if ok {
      if p1.nput != 0 {
        HandOverKeeps(p1, r);
      } else {
        RoundReceives(p1, r);
        assert p.waiting - {r} + {r} == p.waiting;
      }
    }
  }

  // ---------------------------------------------------------------- nothing is given up

  ghost predicate HasFailed(p: Pool, w: nat) { w in p.place && p.place[w] == Failed }

  /** A put call has failed if and only if it had before, or its own wait fails in this step. */
  lemma FailsIff(p: Pool, op: Op, w: nat)
    requires Inv(p)
    ensures HasFailed(Do(p, op), w) <==> HasFailed(p, w) || (op == PutWakeOp(w, false) && Loose(p, w))
  {
    match op {
      case PutOp(x, items) => if x !in p.place && items != [] { PutLands(p, x, items); }
      case PutWakeOp(x, ok) => if Loose(p, x) { PutWakeLands(p, x, ok); }
      case PutResumeOp => if p.L != NONE { PutResumeLands(p); }
      case GetOp(r) => if IsNewReader(p, r) { TakenIsStored(p); GetReceives(p, r); }
      case GetWakeOp(r, ok) => if r in p.waiting { TakenIsStored(p); GetWakeReceives(p, r, ok); }
      case MaxOp(_) =>
    }
  }

  lemma TakenIsStored(p: Pool)
    requires Inv(p)
    ensures p.queue != [] ==> p.queue[0] in p.place && p.place[p.queue[0]] == Stored
    ensures p.nput != 0 ==> p.L in p.place && p.place[p.L] == Offered
  {
    assert Holds(Calls, p) && Holds(Fifo, p) && Holds(Offer, p);
    if p.queue != [] { assert p.queue[0] in p.queue; }
  }

  /** No put call of the run has its wait fail. */
  ghost predicate NoWaitFails(ops: seq<Op>) {
    forall i :: 0 <= i < |ops| ==> !(ops[i].PutWakeOp? && !ops[i].ok)
  }

  lemma {:induction false} NoneFails(p: Pool, ops: seq<Op>, w: nat)
    requires Inv(p) && NoWaitFails(ops) && !HasFailed(p, w)
    ensures !HasFailed(Run(p, ops), w)
    decreases |ops|
  {
    if ops != [] {
      FailsIff(p, ops[0], w);
      NoneFails(Do(p, ops[0]), ops[1..], w);
    }
  }

  /** If no wait of a put call fails, all that was put is with a reader, stored in the queue, offered, or waits. */
  lemma NothingGivenUp(ops: seq<Op>, w: nat)
    requires NoWaitFails(ops) && w in Run(New(), ops).place
    ensures var p := Run(New(), ops);
            || (p.place[w].Handed? && p.place[w].r in p.got && w in p.data && p.got[p.place[w].r] == p.data[w])
            || w in p.queue || (p.L == w && p.nput != 0) || p.place[w] == Blocked
  {
    NoneFails(New(), ops, w);
    StoredMeans(Run(New(), ops));
    DeliveredMeans(Run(New(), ops));
  }

  // ---------------------------------------------------------------- first in, first out

  /** A step that takes the oldest stored call. */
  ghost predicate Removes(p: Pool, op: Op)
    requires Inv(p)
  {
    |Do(p, op).queue| < |p.queue|
  }

  /** Calls leave the queue at its front, each to the reader of this step, and join it at its end. */
  lemma QueueSteps(p: Pool, op: Op)
    requires Inv(p)
    ensures if Removes(p, op) then
              && (op.GetOp? || op.GetWakeOp?) && p.queue != [] && p.queue[0] in Do(p, op).place
              && Do(p, op).queue == p.queue[1..] && Do(p, op).place[p.queue[0]] == Handed(op.r)
            else p.queue <= Do(p, op).queue
  {
    match op {
      case PutOp(x, items) => if x !in p.place && items != [] { PutLands(p, x, items); }
      case PutWakeOp(x, ok) => if Loose(p, x) { PutWakeLands(p, x, ok); }
      case PutResumeOp => if p.L != NONE { PutResumeLands(p); }
      case GetOp(r) => if IsNewReader(p, r) { GetReceives(p, r); }
      case GetWakeOp(r, ok) => if r in p.waiting { GetWakeReceives(p, r, ok); }
      case MaxOp(_) =>
    }
  }

  ghost function Removals(p: Pool, ops: seq<Op>): nat
    requires Inv(p)
    decreases |ops|
  {
    if ops == [] then 0 else (if Removes(p, ops[0]) then 1 else 0) + Removals(Do(p, ops[0]), ops[1..])
  }

  /** A stored call moves up by one with every call taken out, whatever else happens in between. */
  lemma {:induction false} FirstInFirstOut(p: Pool, ops: seq<Op>, k: nat)
    requires Inv(p) && k < |p.queue| && Removals(p, ops) <= k
    ensures var queue := Run(p, ops).queue;
            k - Removals(p, ops) < |queue| && queue[k - Removals(p, ops)] == p.queue[k]
    decreases |ops|
  {
    if ops != [] {
      QueueSteps(p, ops[0]);
      var q := Do(p, ops[0]);
      var j := if Removes(p, ops[0]) then k - 1 else k;
      assert Removals(p, ops) == k - j + Removals(q, ops[1..]);
      assert 0 <= j < |q.queue| && q.queue[j] == p.queue[k];
      FirstInFirstOut(q, ops[1..], j);
    }
  }
}
