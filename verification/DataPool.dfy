/** The data pool of src/thread/thread_dpool.c with the loops over its storage table, one method a step. */
module DataPool {
  import opened PoolState
  import PoolRuns

  class DataPool {
    var n: nat
    var nwaits: nat
    var nput: nat
    var L: int                       // the offering put call, or NONE
    var idx: nat
    var top: nat
    var max: nat
    var storage: map<nat, Cell>
    var data: map<nat, seq<int>>     // the items on the Lua stacks of the put calls

    ghost var place: map<nat, Place>
    ghost var queue: seq<nat>
    ghost var waiting: set<nat>
    ghost var got: map<nat, seq<int>>

    ghost function Snap(): Pool
      reads this
    {
      Pool(n, nwaits, nput, L, idx, top, max, storage, data, place, queue, waiting, got)
    }

    constructor ()
      ensures Snap() == PoolRuns.New() && Inv(Snap())
    {
      n, nwaits, nput, L, idx, top, max, storage, data := 0, 0, 0, NONE, 0, 0, PoolRuns.UINT_MAX, map[], map[];
      place, queue, waiting, got := map[], [], {}, map[];
    }

    // -------------------------------------------------------------- dpool_put

    /** The items go to the storage, preceded by their number and in reverse. */
    method Keep(w: nat)
      requires IsPut(Snap(), w)
      modifies this
      ensures Snap() == Store(old(Snap()), w)
    {
      ghost var p := Snap();
      WriteTuple(data[w]);
      n := n + 1;
      place, queue := place[w := Stored], queue + [w];
    }

    method WriteTuple(items: seq<int>)
      modifies `storage, `top
      ensures storage == StoreCells(old(storage), old(top), Tuple(items)) && top == old(top) + |items| + 1
    {
      ghost var c, j := Tuple(items), 0;
      var left := |items|;
      var cell := Count(left);
      assert c[..0] == [];
      while true
        invariant 0 <= j <= |items| && left == |items| - j && cell == c[j]
        invariant storage == StoreCells(old(storage), old(top), c[..j]) && top == old(top) + j
        decreases left
      {
        top := top + 1;
        storage := storage[top := cell];
        assert c[..j + 1][..j] == c[..j];
        if left == 0 {
          break;
        }
        left := left - 1;
        cell := Item(items[left]);
        j := j + 1;
      }
      assert c[..j + 1] == c;
    }

    method Go(w: nat)
      requires Inv(Snap()) && Loose(Snap(), w)
      modifies this
      ensures Snap() == PoolRuns.Go(old(Snap()), w)
    {
      if nwaits > 0 && L == NONE {
        L, nput := w, |data[w]|;
        place := place[w := Offered];
      } else {
        Keep(w);
      }
    }

    /** dpool_put up to its first wait or switch. */
    method PutBegin(w: nat, items: seq<int>)
      requires Inv(Snap()) && w !in place && items != []
      modifies this
      ensures Snap() == PoolRuns.PutBegin(old(Snap()), w, items)
    {
      PoolRuns.NewcomerKeeps(Snap(), w, items);
      data, place := data[w := items], place[w := Blocked];
      if n < max {
        Go(w);
      }
    }

    /** A put call that has waited for room; `ok` is false if the wait has failed. */
    method PutWake(w: nat, ok: bool)
      requires Inv(Snap()) && Loose(Snap(), w)
      modifies this
      ensures Snap() == PoolRuns.PutWake(old(Snap()), w, ok)
    {
      if !ok {
        place := place[w := Failed];
      } else if n < max {
        Go(w);
      }
    }

    /** The put call that has offered its items runs again; `moved` says that a reader has them. */
    method PutResume() returns (moved: bool)
      requires Inv(Snap()) && L != NONE
      modifies this
      ensures Snap() == PoolRuns.PutResume(old(Snap())) && (moved <==> old(nput) == 0)
    {
      ghost var p := Snap();
      assert Holds(Clause.Offer, p);
      var w: nat := L;
      L := NONE;
      moved := nput == 0;
      if !moved {
        PoolRuns.WithdrawKeeps(p, w);
        nput := 0;
        place := place[w := Blocked];
        Keep(w);
      }
    }

    // -------------------------------------------------------------- dpool_get

    /** The oldest tuple is taken out of the storage. */
    method TakeStored(ghost r: nat) returns (items: seq<int>)
      requires Filled(Snap()) && Reads(storage, idx, data[queue[0]])
      modifies this
      ensures Snap() == Take(old(Snap()), r) && items == old(data[queue[0]])
    {
      ghost var w := queue[0];
      items := ReadTuple(data[w]);
      Uncount();
      place, queue, got := place[w := Handed(r)], queue[1..], got[r := data[w]];
    }

    /** One tuple less; an empty storage starts anew. */
    method Uncount()
      requires n > 0
      modifies `idx, `top, `n
      ensures n == old(n) - 1
      ensures (idx, top) == if old(idx) == old(top) then (0, 0) else (old(idx), old(top))
    {
      if idx == top {
        idx, top := 0, 0;
      }
      n := n - 1;
    }

    method ReadTuple(ghost t: seq<int>) returns (items: seq<int>)
      requires Reads(storage, idx, t)
      modifies `storage, `idx
      ensures items == t && idx == old(idx) + 1 + |t| && storage == DropCells(old(storage), old(idx), 1 + |t|)
    {
      ghost var s0 := storage;
      var first := idx + 1;
      var count := storage[first].k;
      storage := storage - {first};
      idx := first + count;
      items := [];
      var i := idx;
      while i > first
        invariant first <= i <= idx == first + |t|
        invariant items == t[..idx - i]
        invariant forall x {:trigger x in storage} :: x in storage <==> x in s0 && x != first && !(i < x <= idx)
        invariant forall x {:trigger storage[x]} :: x in storage ==> storage[x] == s0[x]
        decreases i
      {
        assert i in s0;
        assert i in storage && storage[i] == s0[i];
        items := items + [storage[i].v];
        storage := storage - {i};
        i := i - 1;
      }
    }

    /** One round of the loop of dpool_get: the items, or nothing and the call waits. */
    method GetRound(ghost r: nat) returns (items: seq<int>)
      requires Inv(Snap()) && PoolRuns.IsNewReader(Snap(), r)
      modifies this
      ensures Snap() == PoolRuns.GetRound(old(Snap()), r)
      ensures items == if r in got then got[r] else []
    {
      items := [];
      if n > 0 {
        TakeKeeps(Snap(), r);
        FirstCells(Snap());
        items := TakeStored(r);
      } else {
        nwaits := nwaits + 1;
        waiting := waiting + {r};
      }
    }

    /** A get call that has waited; `ok` is false after a timeout or an error. */
    method GetWake(ghost r: nat, ok: bool) returns (items: seq<int>)
      requires Inv(Snap()) && r in waiting
      modifies this
      ensures Snap() == PoolRuns.GetWake(old(Snap()), r, ok)
      ensures items == if r in got then got[r] else []
    {
      ghost var p := Snap();
      PoolRuns.AwakeKeeps(p, r);
      nwaits := nwaits - 1;
      waiting := waiting - {r};
      items := [];
      if !ok {
        return;
      }
      if nput != 0 {
        PoolRuns.HandOverKeeps(Snap(), r);
        items := data[L];
        nput := 0;
        got, place := got[r := data[L]], place[L := Handed(r)];
      } else {
        items := GetRound(r);
      }
    }
  }
}
