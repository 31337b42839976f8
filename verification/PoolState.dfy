/**
 The data pool of src/thread/thread_dpool.c as a state machine.  A step is what one thread does between two
 places where it lets go of the VM lock: a wait for the event, or the switch after an offer.
 */
module PoolState {

  const NONE := -1

  /** A cell of the storage table: how many items follow, or one of them. */
  datatype Cell = Count(k: nat) | Item(v: int)

  /** Where the items of one put call are. */
  datatype Place = Blocked | Offered | Stored | Handed(r: nat) | Failed

  /**
   struct data_pool with its table; `data` and `place` for every put call so far, `queue` the calls whose
   items are stored, `waiting` the get calls that wait and `got` what others have returned.
   */
  datatype Pool = Pool(
    n: nat, nwaits: nat, nput: nat, L: int, idx: nat, top: nat, max: nat, storage: map<nat, Cell>,
    data: map<nat, seq<int>>, place: map<nat, Place>, queue: seq<nat>, waiting: set<nat>, got: map<nat, seq<int>>)

  // ---------------------------------------------------------------- the storage table

  /** The cells of one tuple: its length, then the items from the last to the first. */
  function Tuple(items: seq<int>): (c: seq<Cell>)
    ensures |c| == |items| + 1 && c[0] == Count(|items|)
    ensures forall j :: 1 <= j <= |items| ==> c[j] == Item(items[|items| - j])
  {
    [Count(|items|)] + seq(|items|, j requires 0 <= j < |items| => Item(items[|items| - 1 - j]))
  }

  function Layout(tuples: seq<seq<int>>): seq<Cell> {
    if tuples == [] then [] else Tuple(tuples[0]) + Layout(tuples[1..])
  }

  lemma {:induction false} LayoutSnoc(tuples: seq<seq<int>>, t: seq<int>)
    ensures Layout(tuples + [t]) == Layout(tuples) + Tuple(t)
  {
    if tuples == [] {
      assert [t][1..] == [] && [] + [t] == [t];
    } else {
      assert (tuples + [t])[1..] == tuples[1..] + [t];
      LayoutSnoc(tuples[1..], t);
    }
  }

  lemma {:induction false} LayoutEmpty(tuples: seq<seq<int>>)
    ensures Layout(tuples) == [] <==> tuples == []
  {
  }

  /** The table holds exactly `cells`, behind index `idx`. */
  ghost predicate Holding(storage: map<nat, Cell>, idx: nat, top: nat, cells: seq<Cell>) {
    && top == idx + |cells|
    && (forall i {:trigger i in storage} :: i in storage <==> idx < i <= top)
    && forall i {:trigger storage[i]} :: idx < i <= top ==> storage[i] == cells[i - idx - 1]
  }

  /** The cells `c` stored behind `top`. */
  function StoreCells(storage: map<nat, Cell>, top: nat, c: seq<Cell>): map<nat, Cell> {
    if c == [] then storage else StoreCells(storage, top, c[..|c| - 1])[top + |c| := c[|c| - 1]]
  }

  lemma {:induction false} StoreHolds(storage: map<nat, Cell>, idx: nat, top: nat, cells: seq<Cell>, c: seq<Cell>)
    requires Holding(storage, idx, top, cells)
    ensures Holding(StoreCells(storage, top, c), idx, top + |c|, cells + c)
    decreases |c|
  {
    if c == [] {
      assert cells + c == cells;
    } else {
      var k := |c| - 1;
      StoreHolds(storage, idx, top, cells, c[..k]);
      assert cells + c == (cells + c[..k]) + [c[k]];
    }
  }

  /** The first `k` cells set to nil. */
  function DropCells(storage: map<nat, Cell>, idx: nat, k: nat): map<nat, Cell> {
    map i | i in storage && !(idx < i <= idx + k) :: storage[i]
  }

  lemma DropHolds(storage: map<nat, Cell>, idx: nat, top: nat, cells: seq<Cell>, k: nat)
    requires Holding(storage, idx, top, cells) && k <= |cells|
    ensures Holding(DropCells(storage, idx, k), idx + k, top, cells[k..])
  {
  }

  /** An empty table starts again at index 0. */
  lemma TakeHolds(storage: map<nat, Cell>, idx: nat, top: nat, cells: seq<Cell>, k: nat, rest: seq<Cell>)
    requires Holding(storage, idx, top, cells) && k <= |cells| && rest == cells[k..]
    ensures idx + k == top <==> rest == []
    ensures if idx + k == top then Holding(DropCells(storage, idx, k), 0, 0, rest)
            else Holding(DropCells(storage, idx, k), idx + k, top, rest)
  {
    DropHolds(storage, idx, top, cells, k);
  }

  // ---------------------------------------------------------------- the invariant

  ghost predicate Known(p: Pool) {
    && p.place.Keys == p.data.Keys && (forall w :: w in p.queue ==> w in p.data)
    && forall w :: w in p.data ==> p.data[w] != []
  }

  /** The stored tuples, oldest first. */
  ghost function Tuples(p: Pool): (t: seq<seq<int>>)
    requires Known(p)
    ensures |t| == |p.queue| && forall i :: 0 <= i < |t| ==> t[i] == p.data[p.queue[i]]
  {
    seq(|p.queue|, i requires 0 <= i < |p.queue| => p.data[p.queue[i]])
  }

  datatype Clause = Calls | Table | Fifo | Offer | Waits | Given | Once | Backed

  ghost predicate Holds(c: Clause, p: Pool) {
    match c
    case Calls => Known(p)
    case Table =>
      && Known(p) && p.n == |p.queue| && Holding(p.storage, p.idx, p.top, Layout(Tuples(p)))
      && (p.queue == [] ==> p.idx == 0 && p.top == 0)
    case Fifo =>
      && (forall i, j :: 0 <= i < j < |p.queue| ==> p.queue[i] != p.queue[j])
      && forall w {:trigger w in p.place} :: w in p.place ==> (p.place[w] == Stored <==> w in p.queue)
    case Offer =>
      && Known(p) && NONE <= p.L && (p.L == NONE ==> p.nput == 0) && (p.L != NONE ==> p.L in p.place)
      && (forall w {:trigger w in p.place} :: w in p.place ==> (p.place[w] == Offered <==> p.L == w && p.nput != 0))
      && (p.nput != 0 ==> p.nput == |p.data[p.L]|)
    case Waits => p.nwaits == |p.waiting| && p.waiting !! p.got.Keys
    case Given =>    // a reader has the items of the call as they were put
      && Known(p)
      && forall w {:trigger w in p.place} :: w in p.place && p.place[w].Handed? ==>
           p.place[w].r in p.got && p.got[p.place[w].r] == p.data[w]
    case Once =>     // no two calls have gone to the same reader
      forall w, w' {:trigger p.place[w], p.place[w']} ::
        w in p.place && w' in p.place && p.place[w].Handed? && p.place[w] == p.place[w'] ==> w == w'
    case Backed =>   // every reader has been given some call's items
      forall r {:trigger r in p.got} :: r in p.got ==> exists w :: w in p.place && p.place[w] == Handed(r)
  }

  ghost predicate Inv(p: Pool) {
    forall c {:trigger Holds(c, p)} :: Holds(c, p)
  }

  // ---------------------------------------------------------------- storing and taking

  ghost predicate IsPut(p: Pool, w: nat) { w in p.place && w in p.data && p.data[w] != [] }

  /** The items of call `w` are kept in the storage. */
  ghost function Store(p: Pool, w: nat): Pool
    requires IsPut(p, w)
  {
    var c := Tuple(p.data[w]);
    p.(storage := StoreCells(p.storage, p.top, c), top := p.top + |c|, n := p.n + 1,
       place := p.place[w := Stored], queue := p.queue + [w])
  }

  /** The call stands between its steps: blocked, or with its own offer withdrawn. */
  ghost predicate Loose(p: Pool, w: nat) { IsPut(p, w) && p.place[w] == Blocked }

  lemma StoreKeeps(p: Pool, w: nat)
    requires Inv(p) && Loose(p, w)
    ensures Inv(Store(p, w))
  {
    assert Holds(Calls, p) && Holds(Table, p) && Holds(Fifo, p) && Holds(Offer, p) && Holds(Waits, p);
    var q := Store(p, w);
    assert Known(q);
    StoreTable(p, w);
    forall c
      ensures Holds(c, q)
    {
      match c {
        case Calls =>
        case Table =>
        case Fifo =>
        case Offer =>
        case Waits =>
        case Given => PlaceChanges(p, q, w);
        case Once => PlaceChanges(p, q, w);
        case Backed => PlaceChanges(p, q, w);
      }
    }
  }

  lemma StoreTable(p: Pool, w: nat)
    requires Inv(p) && Loose(p, w)
    ensures Holds(Table, Store(p, w))
  {
    assert Holds(Calls, p) && Holds(Table, p);
    TuplesSnoc(p, Store(p, w), w);
    StoreHolds(p.storage, p.idx, p.top, Layout(Tuples(p)), Tuple(p.data[w]));
  }

  lemma TuplesSnoc(p: Pool, q: Pool, w: nat)
    requires Known(p) && Known(q) && w in p.data && q.data == p.data && q.queue == p.queue + [w]
    ensures Layout(Tuples(q)) == Layout(Tuples(p)) + Tuple(p.data[w])
  {
    assert Tuples(q) == Tuples(p) + [p.data[w]];
    LayoutSnoc(Tuples(p), p.data[w]);
  }

  /** One call moves between places other than a reader's hands. */
  lemma PlaceChanges(p: Pool, q: Pool, w: nat)
    requires Inv(p) && Known(q) && w in p.place && !p.place[w].Handed?
    requires w in q.place && !q.place[w].Handed? && q.place == p.place[w := q.place[w]] && q.got == p.got && q.data == p.data
    ensures Holds(Given, q) && Holds(Once, q) && Holds(Backed, q)
  {
    assert Holds(Given, p) && Holds(Once, p) && Holds(Backed, p);
    StillBacked(p, q, w);
  }

  lemma StillBacked(p: Pool, q: Pool, w: nat)
    requires Holds(Backed, p) && w in p.place && !p.place[w].Handed? && w in q.place
    requires q.place == p.place[w := q.place[w]]
    ensures forall r :: r in p.got ==> exists x :: x in q.place && q.place[x] == Handed(r)
  {
    forall r | r in p.got
      ensures exists x :: x in q.place && q.place[x] == Handed(r)
    {
      var x :| x in p.place && p.place[x] == Handed(r);
      assert q.place[x] == Handed(r);
    }
  }

  ghost predicate Filled(p: Pool) { p.n > 0 && p.queue != [] && p.queue[0] in p.data && p.queue[0] in p.place }

  /** Get call `r` returns the oldest stored tuple. */
  ghost function Take(p: Pool, r: nat): Pool
    requires Filled(p)
  {
    var w := p.queue[0];
    var idx := p.idx + 1 + |p.data[w]|;
    p.(storage := DropCells(p.storage, p.idx, 1 + |p.data[w]|), idx := if idx == p.top then 0 else idx,
       top := if idx == p.top then 0 else p.top, n := p.n - 1,
       place := p.place[w := Handed(r)], queue := p.queue[1..], got := p.got[r := p.data[w]])
  }

  lemma TakeKeeps(p: Pool, r: nat)
    requires Inv(p) && p.n > 0 && r !in p.got && r !in p.waiting
    ensures Filled(p) && Inv(Take(p, r))
  {
    assert Holds(Calls, p) && Holds(Table, p) && Holds(Fifo, p) && Holds(Offer, p) && Holds(Waits, p);
    var w, q := p.queue[0], Take(p, r);
    assert w in p.queue;
    TakeTable(p, r);
    forall c
      ensures Holds(c, q)
    {
      match c {
        case Calls =>
        case Table =>
        case Fifo => TakeFifo(p, r);
        case Offer =>
        case Waits =>
        case Given => Delivered(p, q, w, r);
        case Once => Delivered(p, q, w, r);
        case Backed => Delivered(p, q, w, r);
      }
    }
  }

  lemma TakeFifo(p: Pool, r: nat)
    requires Holds(Fifo, p) && Filled(p)
    ensures Holds(Fifo, Take(p, r))
  {
    assert p.queue == [p.queue[0]] + p.queue[1..];
  }

  lemma TakeTable(p: Pool, r: nat)
    requires Inv(p) && Filled(p)
    ensures Known(Take(p, r)) && Holds(Table, Take(p, r))
  {
    var q := Take(p, r);
    TakeKnown(p, r);
    assert Holds(Calls, p) && Holds(Table, p);
    var rest := RestOfTable(p, q);
    TakenTable(p, q, Layout(Tuples(p)), 1 + |p.data[p.queue[0]]|, rest);
  }

  lemma TakenTable(p: Pool, q: Pool, cells: seq<Cell>, k: nat, rest: seq<Cell>)
    requires Holding(p.storage, p.idx, p.top, cells) && k <= |cells| && rest == cells[k..]
    requires q.storage == DropCells(p.storage, p.idx, k) && (rest == [] <==> q.queue == [])
    requires q.idx == (if p.idx + k == p.top then 0 else p.idx + k) && q.top == (if p.idx + k == p.top then 0 else p.top)
    ensures Holding(q.storage, q.idx, q.top, rest) && (q.queue == [] ==> q.idx == 0 && q.top == 0)
  {
    TakeHolds(p.storage, p.idx, p.top, cells, k, rest);
  }

  lemma TakeKnown(p: Pool, r: nat)
    requires Inv(p) && Filled(p)
    ensures Known(Take(p, r))
  {
    assert Holds(Calls, p);
    assert forall w :: w in p.queue[1..] ==> w in p.queue;
  }

  lemma RestOfTable(p: Pool, q: Pool) returns (rest: seq<Cell>)
    requires Known(p) && Known(q) && p.queue != [] && q.queue == p.queue[1..] && q.data == p.data
    ensures var cells, k := Layout(Tuples(p)), 1 + |p.data[p.queue[0]]|;
            k <= |cells| && rest == cells[k..]
    ensures rest == Layout(Tuples(q)) && (rest == [] <==> q.queue == [])
  {
    FirstTuple(p);
    TuplesRest(p, q);
    LayoutEmpty(Tuples(q));
    rest := Layout(Tuples(q));
  }

  lemma TuplesRest(p: Pool, q: Pool)
    requires Known(p) && Known(q) && p.queue != [] && q.queue == p.queue[1..] && q.data == p.data
    ensures Tuples(q) == Tuples(p)[1..]
  {
  }

  /** The table starts with the oldest tuple. */
  lemma FirstTuple(p: Pool)
    requires Known(p) && p.queue != []
    ensures var cells, t := Layout(Tuples(p)), Tuple(p.data[p.queue[0]]);
            |t| <= |cells| && cells[..|t|] == t && cells[|t|..] == Layout(Tuples(p)[1..])
  {
    assert Tuples(p)[0] == p.data[p.queue[0]];
  }

  /** The cells behind `idx` are those of one tuple. */
  ghost predicate Reads(storage: map<nat, Cell>, idx: nat, items: seq<int>) {
    && idx + 1 in storage && storage[idx + 1] == Count(|items|)
    && forall i: nat {:trigger i in storage} {:trigger storage[i]} :: idx + 1 < i <= idx + 1 + |items| ==>
         i in storage && storage[i] == Item(items[idx + 1 + |items| - i])
  }

  /** What dpool_get reads is the oldest tuple. */
  lemma FirstCells(p: Pool)
    requires Inv(p) && Filled(p)
    ensures p.idx + 1 + |p.data[p.queue[0]]| <= p.top && Reads(p.storage, p.idx, p.data[p.queue[0]])
  {
    assert Holds(Calls, p) && Holds(Table, p);
    FirstTuple(p);
    var cells, items := Layout(Tuples(p)), p.data[p.queue[0]];
    forall i | p.idx < i <= p.idx + 1 + |items|
      ensures i in p.storage && p.storage[i] == Tuple(items)[i - p.idx - 1]
    {
      assert cells[i - p.idx - 1] == cells[..|Tuple(items)|][i - p.idx - 1];
    }
  }

  /** Call `w` ends up with the new reader `r`. */
  lemma Delivered(p: Pool, q: Pool, w: nat, r: nat)
    requires Inv(p) && Known(q) && w in p.place && w in p.data && !p.place[w].Handed? && r !in p.got
    requires q.place == p.place[w := Handed(r)] && q.got == p.got[r := p.data[w]] && q.data == p.data
    ensures Holds(Given, q) && Holds(Once, q) && Holds(Backed, q)
  {
    DeliveredGiven(p, q, w, r);
    assert Holds(Backed, p);
    StillBacked(p, q, w);
    assert q.place[w] == Handed(r);
  }

  lemma DeliveredGiven(p: Pool, q: Pool, w: nat, r: nat)
    requires Inv(p) && Known(q) && w in p.place && w in p.data && !p.place[w].Handed? && r !in p.got
    requires q.place == p.place[w := Handed(r)] && q.got == p.got[r := p.data[w]] && q.data == p.data
    ensures Holds(Given, q) && Holds(Once, q)
  {
    assert Holds(Given, p) && Holds(Once, p);
  }
}
