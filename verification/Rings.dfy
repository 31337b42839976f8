/** Circular lists threaded by index through the fields prev_id and next_id; the head is -1 when empty. */
module Rings {
  import opened Lists

  function NextOf(s: seq<nat>, i: nat): nat
    requires i < |s|
  {
    if i + 1 < |s| then s[i + 1] else s[0]
  }

  function PrevOf(s: seq<nat>, i: nat): nat
    requires i < |s|
  {
    if i > 0 then s[i - 1] else s[|s| - 1]
  }

  /** From `head` on, the ring consists of exactly the ids `s`, forwards and backwards. */
  ghost predicate Ring(prev: seq<int>, next: seq<int>, head: int, s: seq<nat>) {
    && |prev| == |next| && Within(s, |next|) && Distinct(s) && head == At(s, 0)
    && (forall i {:trigger next[s[i]]} :: 0 <= i < |s| ==> next[s[i]] == NextOf(s, i))
    && (forall i {:trigger prev[s[i]]} :: 0 <= i < |s| ==> prev[s[i]] == PrevOf(s, i))
  }

  lemma RingFrame(prev: seq<int>, next: seq<int>, prev': seq<int>, next': seq<int>, head: int, s: seq<nat>)
    requires Ring(prev, next, head, s) && |prev'| == |next'| >= |prev|
    requires forall p :: p in s ==> prev'[p] == prev[p] && next'[p] == next[p]
    ensures Ring(prev', next', head, s)
  {
  }

  // ---------------------------------------------------------------- sched_tasklist_add

  ghost predicate Addable(prev: seq<int>, next: seq<int>, head: int, t: nat) {
    |prev| == |next| && t < |next| && NULL <= head < |next| && (head != NULL ==> 0 <= prev[head] < |next|)
  }

  function AddPrev(prev: seq<int>, next: seq<int>, head: int, t: nat): seq<int>
    requires Addable(prev, next, head, t)
  {
    if head >= 0 then prev[t := prev[head]][head := t] else prev[t := t]
  }

  function AddNext(prev: seq<int>, next: seq<int>, head: int, t: nat): seq<int>
    requires Addable(prev, next, head, t)
  {
    if head >= 0 then next[prev[head] := t][t := head] else next[t := t]
  }

  function AddHead(head: int, t: nat): int {
    if head >= 0 then head else t
  }

  /** The new task is the last of the ring: the one before the head. */
  lemma RingAdd(prev: seq<int>, next: seq<int>, head: int, s: seq<nat>, t: nat)
    requires Ring(prev, next, head, s) && t < |next| && t !in s
    ensures Addable(prev, next, head, t)
    ensures Ring(AddPrev(prev, next, head, t), AddNext(prev, next, head, t), AddHead(head, t), s + [t])
    ensures forall p: nat :: p < |next| && p != t && p !in s ==>
              AddPrev(prev, next, head, t)[p] == prev[p] && AddNext(prev, next, head, t)[p] == next[p]
  {
    if s != [] {
      assert prev[s[0]] == s[|s| - 1] && s[|s| - 1] in s && s[0] in s;
      var u := s + [t];
      var p', n' := AddPrev(prev, next, head, t), AddNext(prev, next, head, t);
      forall i | 0 <= i < |u|
        ensures p'[u[i]] == PrevOf(u, i) && n'[u[i]] == NextOf(u, i)
      {
        if i < |s| {
          assert u[i] == s[i] && prev[s[i]] == PrevOf(s, i) && next[s[i]] == NextOf(s, i);
        }
      }
    }
  }

  // ---------------------------------------------------------------- sched_tasklist_del

  ghost predicate Removable(prev: seq<int>, next: seq<int>, t: nat) {
    |prev| == |next| && t < |next| && 0 <= prev[t] < |next| && 0 <= next[t] < |next|
  }

  function DelPrev(prev: seq<int>, next: seq<int>, t: nat): seq<int>
    requires Removable(prev, next, t)
  {
    if next[t] != t then prev[next[t] := prev[t]] else prev
  }

  function DelNext(prev: seq<int>, next: seq<int>, t: nat): seq<int>
    requires Removable(prev, next, t)
  {
    if next[t] != t then next[prev[t] := next[t]] else next
  }

  function DelHead(next: seq<int>, head: int, t: nat): int
    requires t < |next|
  {
    if next[t] == t then NULL else if head == t then next[t] else head
  }

  /** The task at position `k` leaves the ring. */
  lemma RingDel(prev: seq<int>, next: seq<int>, head: int, s: seq<nat>, k: nat)
    requires Ring(prev, next, head, s) && k < |s|
    ensures Removable(prev, next, s[k])
    ensures Ring(DelPrev(prev, next, s[k]), DelNext(prev, next, s[k]), DelHead(next, head, s[k]), Without(s, k))
    ensures forall p: nat :: p < |next| && p !in s ==>
              DelPrev(prev, next, s[k])[p] == prev[p] && DelNext(prev, next, s[k])[p] == next[p]
  {
    assert next[s[k]] == NextOf(s, k) && prev[s[k]] == PrevOf(s, k);
    assert NextOf(s, k) in s && PrevOf(s, k) in s;
    if |s| > 1 {
      RingDelLinks(prev, next, head, s, k);
      WithoutAt(s, k, 0);
    }
  }

  lemma RingDelLinks(prev: seq<int>, next: seq<int>, head: int, s: seq<nat>, k: nat)
    requires Ring(prev, next, head, s) && k < |s| && |s| > 1 && Removable(prev, next, s[k])
    requires next[s[k]] == NextOf(s, k) && prev[s[k]] == PrevOf(s, k)
    ensures Within(Without(s, k), |next|) && Distinct(Without(s, k))
    ensures forall i :: 0 <= i < |s| - 1 ==>
              && DelNext(prev, next, s[k])[Without(s, k)[i]] == NextOf(Without(s, k), i)
              && DelPrev(prev, next, s[k])[Without(s, k)[i]] == PrevOf(Without(s, k), i)
  {
    var u := Without(s, k);
    forall i | 0 <= i < |u|
      ensures u[i] == s[if i < k then i else i + 1] && u[i] < |next|
      ensures DelNext(prev, next, s[k])[u[i]] == NextOf(u, i) && DelPrev(prev, next, s[k])[u[i]] == PrevOf(u, i)
    {
      var j := if i < k then i else i + 1;
      assert u[i] == s[j] && next[s[j]] == NextOf(s, j) && prev[s[j]] == PrevOf(s, j);
    }
  }

  /** The head of a ring leaves it. */
  lemma Uncons(s: seq<nat>)
    requires s != [] && Distinct(s)
    ensures Without(s, 0) == s[1..] && s[0] !in s[1..]
    ensures forall p {:trigger p in s} {:trigger p in s[1..]} :: p in s <==> p == s[0] || p in s[1..]
  {
    assert s == [s[0]] + s[1..];
  }
}
