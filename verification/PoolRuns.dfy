/** The steps of dpool_put and dpool_get, and every interleaving of them. */
module PoolRuns {
  import opened PoolState

  // ---------------------------------------------------------------- dpool_put

  /** A put call with no room is blocked; otherwise it offers its items or stores them. */
  ghost function Go(p: Pool, w: nat): (q: Pool)
    requires Inv(p) && Loose(p, w)
    ensures Inv(q)
  {
    if p.nwaits > 0 && p.L == NONE then
      OfferKeeps(p, w);
      MakeOffer(p, w)
    else
      StoreKeeps(p, w);
      Store(p, w)
  }

  ghost function MakeOffer(p: Pool, w: nat): Pool
    requires IsPut(p, w)
  {
    p.(L := w, nput := |p.data[w]|, place := p.place[w := Offered])
  }

  lemma OfferKeeps(p: Pool, w: nat)
    requires Inv(p) && Loose(p, w) && p.L == NONE
    ensures Inv(MakeOffer(p, w))
  {
    var q := MakeOffer(p, w);
    assert Holds(Calls, p);
    PlaceChanges(p, q, w);
    forall c
      ensures Holds(c, q)
    {
      assert Holds(c, p);
      match c {
        case Calls =>
        case Table => assert Tuples(q) == Tuples(p);
        case Fifo =>
        case Offer =>
        case Waits =>
        case Given =>
        case Once =>
        case Backed =>
      }
    }
  }

  ghost function Newcomer(p: Pool, w: nat, items: seq<int>): Pool {
    p.(data := p.data[w := items], place := p.place[w := Blocked])
  }

  lemma NewcomerKeeps(p: Pool, w: nat, items: seq<int>)
    requires Inv(p) && w !in p.place && items != []
    ensures Inv(Newcomer(p, w, items)) && Loose(Newcomer(p, w, items), w)
  {
    var q := Newcomer(p, w, items);
    assert Holds(Calls, p) && Holds(Fifo, p);
    NewcomerBacked(p, w, items);
    forall c
      ensures Holds(c, q)
    {
      assert Holds(c, p);
      match c {
        case Calls =>
        case Table => assert Tuples(q) == Tuples(p);
        case Fifo =>
        case Offer =>
        case Waits =>
        case Given =>
        case Once =>
        case Backed =>
      }
    }
  }

  lemma NewcomerBacked(p: Pool, w: nat, items: seq<int>)
    requires Inv(p) && w !in p.place && items != []
    ensures Holds(Backed, Newcomer(p, w, items))
  {
    var q := Newcomer(p, w, items);
    assert Holds(Calls, p) && Holds(Backed, p);
    forall r | r in q.got
      ensures exists x :: x in q.place && q.place[x] == Handed(r)
    {
      var x :| x in p.place && p.place[x] == Handed(r);
      assert q.place[x] == Handed(r);
    }
  }

  /** dpool_put up to its first wait or switch. */
  ghost function PutBegin(p: Pool, w: nat, items: seq<int>): (q: Pool)
    requires Inv(p) && w !in p.place && items != []
    ensures Inv(q)
  {
    NewcomerKeeps(p, w, items);
    var p1 := Newcomer(p, w, items);
    if p1.n >= p1.max then p1 else Go(p1, w)
  }

  ghost function Fail(p: Pool, w: nat): Pool {
    p.(place := p.place[w := Failed])
  }

  lemma FailKeeps(p: Pool, w: nat)
    requires Inv(p) && Loose(p, w)
    ensures Inv(Fail(p, w))
  {
    var q := Fail(p, w);
    assert Holds(Calls, p);
    PlaceChanges(p, q, w);
    forall c
      ensures Holds(c, q)
    {
      assert Holds(c, p);
      match c {
        case Calls =>
        case Table => assert Tuples(q) == Tuples(p);
        case Fifo =>
        case Offer =>
        case Waits =>
        case Given =>
        case Once =>
        case Backed =>
      }
    }
  }

  /** A blocked put call wakes up; `ok` is false if the wait has failed. */
  ghost function PutWake(p: Pool, w: nat, ok: bool): (q: Pool)
    requires Inv(p) && Loose(p, w)
    ensures Inv(q)
  {
    if !ok then
      FailKeeps(p, w);
      Fail(p, w)
    else if p.n >= p.max then p
    else Go(p, w)
  }

  /** The offer is withdrawn. */
  ghost function Withdraw(p: Pool, w: nat): Pool {
    p.(L := NONE, nput := 0, place := p.place[w := Blocked])
  }

  lemma WithdrawKeeps(p: Pool, w: nat)
    requires Inv(p) && p.L == w && p.nput != 0
    ensures Inv(Withdraw(p, w)) && Loose(Withdraw(p, w), w)
  {
    var q := Withdraw(p, w);
    assert Holds(Calls, p) && Holds(Offer, p);
    PlaceChanges(p, q, w);
    forall c
      ensures Holds(c, q)
    {
      assert Holds(c, p);
      match c {
        case Calls =>
        case Table => assert Tuples(q) == Tuples(p);
        case Fifo =>
        case Offer =>
        case Waits =>
        case Given =>
        case Once =>
        case Backed =>
      }
    }
  }

  lemma LeaveKeeps(p: Pool)
    requires Inv(p) && p.nput == 0
    ensures Inv(p.(L := NONE))
  {
    var q := p.(L := NONE);
    assert Holds(Calls, p);
    forall c
      ensures Holds(c, q)
    {
      assert Holds(c, p);
      match c {
        case Calls =>
        case Table => assert Tuples(q) == Tuples(p);
        case Fifo =>
        case Offer =>
        case Waits =>
        case Given =>
        case Once =>
        case Backed =>
      }
    }
  }

  /** The offering put call runs again: its items have been taken, or it stores them. */
  ghost function PutResume(p: Pool): (q: Pool)
    requires Inv(p) && p.L != NONE
    ensures Inv(q)
  {
    assert Holds(Offer, p);
    if p.nput == 0 then
      LeaveKeeps(p);
      p.(L := NONE)
    else
      WithdrawKeeps(p, p.L);
      StoreKeeps(Withdraw(p, p.L), p.L);
      Store(Withdraw(p, p.L), p.L)
  }

  // ---------------------------------------------------------------- dpool_get

  ghost function Wait(p: Pool, r: nat): Pool {
    p.(waiting := p.waiting + {r}, nwaits := p.nwaits + 1)
  }

  lemma WaitKeeps(p: Pool, r: nat)
    requires Inv(p) && r !in p.waiting && r !in p.got
    ensures Inv(Wait(p, r))
  {
    var q := Wait(p, r);
    assert Holds(Calls, p);
    forall c
      ensures Holds(c, q)
    {
      assert Holds(c, p);
      match c {
        case Calls =>
        case Table => assert Tuples(q) == Tuples(p);
        case Fifo =>
        case Offer =>
        case Waits =>
        case Given =>
        case Once =>
        case Backed =>
      }
    }
  }

  ghost predicate IsNewReader(p: Pool, r: nat) { r !in p.got && r !in p.waiting }

  /** One round of the loop of dpool_get up to its wait. */
  ghost function GetRound(p: Pool, r: nat): (q: Pool)
    requires Inv(p) && IsNewReader(p, r)
    ensures Inv(q)
  {
    if p.n > 0 then
      TakeKeeps(p, r);
      Take(p, r)
    else
      WaitKeeps(p, r);
      Wait(p, r)
  }

  ghost function Awake(p: Pool, r: nat): Pool
    requires r in p.waiting && p.nwaits > 0
  {
    p.(waiting := p.waiting - {r}, nwaits := p.nwaits - 1)
  }

  lemma AwakeKeeps(p: Pool, r: nat)
    requires Inv(p) && r in p.waiting
    ensures p.nwaits > 0 && Inv(Awake(p, r)) && IsNewReader(Awake(p, r), r)
  {
    assert Holds(Calls, p) && Holds(Waits, p);
    var q := Awake(p, r);
    forall c
      ensures Holds(c, q)
    {
      assert Holds(c, p);
      match c {
        case Calls =>
        case Table => assert Tuples(q) == Tuples(p);
        case Fifo =>
        case Offer =>
        case Waits =>
        case Given =>
        case Once =>
        case Backed =>
      }
    }
  }

  ghost predicate Offering(p: Pool) { p.L >= 0 && p.L in p.data && p.L in p.place }

  /** The items offered go to reader `r`. */
  ghost function HandOver(p: Pool, r: nat): Pool
    requires Offering(p)
  {
    p.(nput := 0, got := p.got[r := p.data[p.L]], place := p.place[p.L := Handed(r)])
  }

  lemma HandOverKeeps(p: Pool, r: nat)
    requires Inv(p) && IsNewReader(p, r) && p.nput != 0
    ensures Offering(p) && p.nput == |p.data[p.L]| && Inv(HandOver(p, r))
  {
    assert Holds(Calls, p) && Holds(Offer, p);
    var q := HandOver(p, r);
    HandOverRest(p, r);
    Delivered(p, q, p.L, r);
    forall c
      ensures Holds(c, q)
    {
      match c {
        case Calls =>
        case Table =>
        case Fifo =>
        case Offer =>
        case Waits => assert Holds(Waits, p);
        case Given =>
        case Once =>
        case Backed =>
      }
    }
  }

  /** The storage and the offers after the hand-over. */
  lemma HandOverRest(p: Pool, r: nat)
    requires Inv(p) && Offering(p) && p.nput != 0
    ensures Holds(Table, HandOver(p, r)) && Holds(Fifo, HandOver(p, r)) && Holds(Offer, HandOver(p, r))
  {
    assert Holds(Calls, p) && Holds(Table, p) && Holds(Fifo, p) && Holds(Offer, p);
    assert Tuples(HandOver(p, r)) == Tuples(p);
  }

  /** A waiting get call wakes up; `ok` is false after a timeout or an error. */
  ghost function GetWake(p: Pool, r: nat, ok: bool): (q: Pool)
    requires Inv(p) && r in p.waiting
    ensures Inv(q)
  {
    AwakeKeeps(p, r);
    var p1 := Awake(p, r);
    if !ok then p1
    else if p1.nput != 0 then
      HandOverKeeps(p1, r);
      HandOver(p1, r)
    else GetRound(p1, r)
  }

  // ---------------------------------------------------------------- every interleaving

  datatype Op =
    | PutOp(w: nat, items: seq<int>)
    | PutWakeOp(w: nat, ok: bool)
    | PutResumeOp
    | GetOp(r: nat)
    | GetWakeOp(r: nat, ok: bool)
    | MaxOp(max: nat)

  /** One step of one thread; one that cannot happen in this state does nothing. */
  ghost function Do(p: Pool, op: Op): (q: Pool)
    requires Inv(p)
    ensures Inv(q)
  {
    match op
    case PutOp(w, items) => if w !in p.place && items != [] then PutBegin(p, w, items) else p
    case PutWakeOp(w, ok) => if Loose(p, w) then PutWake(p, w, ok) else p
    case PutResumeOp => if p.L != NONE then PutResume(p) else p
    case GetOp(r) => if IsNewReader(p, r) then GetRound(p, r) else p
    case GetWakeOp(r, ok) => if r in p.waiting then GetWake(p, r, ok) else p
    case MaxOp(max) => MaxKeeps(p, max); p.(max := max)
  }

  lemma MaxKeeps(p: Pool, max: nat)
    requires Inv(p)
    ensures Inv(p.(max := max))
  {
    var q := p.(max := max);
    assert Holds(Calls, p);
    forall c
      ensures Holds(c, q)
    {
      assert Holds(c, p);
      match c {
        case Calls =>
        case Table => assert Tuples(q) == Tuples(p);
        case Fifo =>
        case Offer =>
        case Waits =>
        case Given =>
        case Once =>
        case Backed =>
      }
    }
  }

  ghost function Run(p: Pool, ops: seq<Op>): (q: Pool)
    requires Inv(p)
    ensures Inv(q)
    decreases |ops|
  {
    if ops == [] then p else Run(Do(p, ops[0]), ops[1..])
  }

  const UINT_MAX: nat := 0xFFFF_FFFF

  /** dpool_new. */
  ghost function New(): (p: Pool)
    ensures Inv(p)
  {
    var p := Pool(0, 0, 0, NONE, 0, 0, UINT_MAX, map[], map[], map[], [], {}, map[]);
    NewKeeps(p);
    p
  }

  lemma NewKeeps(p: Pool)
    requires p == Pool(0, 0, 0, NONE, 0, 0, UINT_MAX, map[], map[], map[], [], {}, map[])
    ensures Inv(p)
  {
    forall c
      ensures Holds(c, p)
    {
      match c {
        case Calls =>
        case Table => assert Layout([]) == [];
        case Fifo =>
        case Offer =>
        case Waits =>
        case Given =>
        case Once =>
        case Backed =>
      }
    }
  }

  /**
   In every interleaving: the storage is a FIFO of n length-tagged tuples between idx and top; a put call's
   items are stored once, offered by the one call in L, or have gone whole to exactly one reader; and every
   reader that has returned got the items of exactly one put call.
   */
  lemma NothingLostOrTorn(ops: seq<Op>)
    ensures var p := Run(New(), ops);
            && Known(p) && p.n == |p.queue| && Holding(p.storage, p.idx, p.top, Layout(Tuples(p)))
            && (forall w :: w in p.place ==> (p.place[w] == Stored <==> w in p.queue))
            && (forall i, j :: 0 <= i < j < |p.queue| ==> p.queue[i] != p.queue[j])
            && (forall w :: w in p.place ==> (p.place[w] == Offered <==> p.L == w && p.nput != 0))
            && (forall w :: w in p.place && p.place[w].Handed? ==> p.place[w].r in p.got && p.got[p.place[w].r] == p.data[w])
            && (forall w, w' :: w in p.place && w' in p.place && p.place[w].Handed? && p.place[w] == p.place[w'] ==> w == w')
            && forall r :: r in p.got ==> exists w :: w in p.place && p.place[w] == Handed(r)
  {
    StoredMeans(Run(New(), ops));
    DeliveredMeans(Run(New(), ops));
  }

  lemma StoredMeans(p: Pool)
    requires Inv(p)
    ensures Known(p) && p.n == |p.queue| && Holding(p.storage, p.idx, p.top, Layout(Tuples(p)))
    ensures forall w :: w in p.place ==> (p.place[w] == Stored <==> w in p.queue)
    ensures forall i, j :: 0 <= i < j < |p.queue| ==> p.queue[i] != p.queue[j]
    ensures forall w :: w in p.place ==> (p.place[w] == Offered <==> p.L == w && p.nput != 0)
  {
    assert Holds(Calls, p) && Holds(Table, p) && Holds(Fifo, p) && Holds(Offer, p);
  }

  lemma DeliveredMeans(p: Pool)
    requires Inv(p)
    ensures Known(p)
    ensures forall w :: w in p.place && p.place[w].Handed? ==> p.place[w].r in p.got && p.got[p.place[w].r] == p.data[w]
    ensures forall w, w' :: w in p.place && w' in p.place && p.place[w].Handed? && p.place[w] == p.place[w'] ==> w == w'
    ensures forall r :: r in p.got ==> exists w :: w in p.place && p.place[w] == Handed(r)
  {
    assert Holds(Calls, p) && Holds(Given, p) && Holds(Once, p) && Holds(Backed, p);
  }

  /** Nothing that was put is forgotten or changed, and what a reader has got it keeps. */
  ghost predicate Keeps(p: Pool, q: Pool) {
    && (forall w :: w in p.data ==> w in q.data && q.data[w] == p.data[w])
    && (forall w :: w in p.place && (p.place[w].Handed? || p.place[w] == Failed) ==> w in q.place && q.place[w] == p.place[w])
    && forall r :: r in p.got ==> r in q.got && q.got[r] == p.got[r]
  }

  lemma GoForgetsNothing(p: Pool, w: nat)
    requires Inv(p) && Loose(p, w)
    ensures Keeps(p, Go(p, w))
  {
  }

  lemma RoundForgetsNothing(p: Pool, r: nat)
    requires Inv(p) && IsNewReader(p, r)
    ensures Keeps(p, GetRound(p, r))
  {
    assert Holds(Fifo, p);
    if p.n > 0 {
      TakeKeeps(p, r);
      assert p.queue[0] in p.queue;
    }
  }

  lemma WakeForgetsNothing(p: Pool, r: nat, ok: bool)
    requires Inv(p) && r in p.waiting
    ensures Keeps(p, GetWake(p, r, ok))
  {
    AwakeKeeps(p, r);
    var p1 := Awake(p, r);
    assert Holds(Offer, p1);
    if ok && p1.nput == 0 {
      RoundForgetsNothing(p1, r);
    }
  }

  lemma ResumeForgetsNothing(p: Pool)
    requires Inv(p) && p.L != NONE
    ensures Keeps(p, PutResume(p))
  {
    assert Holds(Offer, p);
  }

  lemma StepKeeps(p: Pool, op: Op)
    requires Inv(p)
    ensures Keeps(p, Do(p, op))
  {
    match op {
      case PutOp(w, items) =>
        if w !in p.place && items != [] {
          assert Holds(Calls, p);
          NewcomerKeeps(p, w, items);
          var p1 := Newcomer(p, w, items);
          if p1.n < p1.max { GoForgetsNothing(p1, w); }
        }
      case PutWakeOp(w, ok) => if Loose(p, w) && ok && p.n < p.max { GoForgetsNothing(p, w); }
      case PutResumeOp => if p.L != NONE { ResumeForgetsNothing(p); }
      case GetOp(r) => if IsNewReader(p, r) { RoundForgetsNothing(p, r); }
      case GetWakeOp(r, ok) => if r in p.waiting { WakeForgetsNothing(p, r, ok); }
      case MaxOp(max) =>
    }
  }

  lemma {:induction false} RunKeeps(p: Pool, ops: seq<Op>)
    requires Inv(p)
    ensures Keeps(p, Run(p, ops))
    decreases |ops|
  {
    if ops != [] {
      StepKeeps(p, ops[0]);
      RunKeeps(Do(p, ops[0]), ops[1..]);
    }
  }
}
