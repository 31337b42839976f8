/** Intrusive lists: singly and doubly linked chains threaded through fields of slots; -1 is NULL. */
module Lists {

  const NULL: int := -1

  /** The element at index `i`, NULL outside the sequence. */
  function At(s: seq<nat>, i: int): int {
    if 0 <= i < |s| then s[i] else NULL
  }

  lemma AtIsPointer(s: seq<nat>, i: int)
    ensures At(s, i) == NULL || (At(s, i) >= 0 && 0 <= i < |s|)
  {
  }

  ghost predicate Distinct(s: seq<nat>) {
    forall i, j :: 0 <= i < j < |s| ==> s[i] != s[j]
  }

  ghost predicate Within(s: seq<nat>, n: nat) {
    forall i :: 0 <= i < |s| ==> s[i] < n
  }

  function Without(s: seq<nat>, k: nat): seq<nat>
    requires k < |s|
  {
    s[..k] + s[k + 1..]
  }

  function Insert<T>(s: seq<T>, k: nat, x: T): seq<T>
    requires k <= |s|
  {
    s[..k] + [x] + s[k..]
  }

  function IndexOf(s: seq<nat>, e: nat): (k: nat)
    requires e in s
    ensures k < |s| && s[k] == e
  {
    if s[0] == e then 0 else 1 + IndexOf(s[1..], e)
  }

  // ---------------------------------------------------------------- singly linked

  /** `head` leads through `link` over exactly the slots `s`. */
  ghost predicate Chain(link: seq<int>, head: int, s: seq<nat>) {
    && Within(s, |link|) && Distinct(s) && head == At(s, 0)
    && forall i {:trigger link[s[i]]} :: 0 <= i < |s| ==> link[s[i]] == At(s, i + 1)
  }

  lemma ChainKeep(link: seq<int>, head: int, s: seq<nat>, p: nat, x: int)
    requires Chain(link, head, s) && p < |link| && p !in s
    ensures Chain(link[p := x], head, s)
  {
  }

  lemma ChainPush(link: seq<int>, head: int, s: seq<nat>, p: nat)
    requires Chain(link, head, s) && p < |link| && p !in s
    ensures Chain(link[p := head], p, [p] + s)
  {
    var t := [p] + s;
    forall i | 0 <= i < |t|
      ensures link[p := head][t[i]] == At(t, i + 1)
    {
      if i > 0 { assert t[i] == s[i - 1]; }
    }
  }

  lemma ChainPop(link: seq<int>, head: int, s: seq<nat>)
    requires Chain(link, head, s) && s != []
    ensures head == s[0] && Chain(link, link[head], s[1..]) && s[0] !in s[1..]
  {
    forall i | 0 <= i < |s[1..]|
      ensures link[s[1..][i]] == At(s[1..], i + 1)
    {
      assert s[1..][i] == s[i + 1];
    }
  }

  /** A longer field array keeps the list. */
  lemma ChainGrow(link: seq<int>, head: int, s: seq<nat>, x: int)
    requires Chain(link, head, s)
    ensures Chain(link + [x], head, s)
  {
  }

  // ---------------------------------------------------------------- doubly linked

  ghost predicate Dll(prev: seq<int>, next: seq<int>, s: seq<nat>) {
    && |prev| == |next| && Within(s, |next|) && Distinct(s)
    && (forall i {:trigger prev[s[i]]} :: 0 <= i < |s| ==> prev[s[i]] == At(s, i - 1))
    && (forall i {:trigger next[s[i]]} :: 0 <= i < |s| ==> next[s[i]] == At(s, i + 1))
  }

  /** Fields equal on the members keep the list. */
  lemma DllFrame(prev: seq<int>, next: seq<int>, prev': seq<int>, next': seq<int>, s: seq<nat>)
    requires Dll(prev, next, s) && |prev'| == |next'| >= |prev|
    requires forall p :: p in s ==> prev'[p] == prev[p] && next'[p] == next[p]
    ensures Dll(prev', next', s)
  {
  }

  lemma DllSingle(prev: seq<int>, next: seq<int>, e: nat)
    requires |prev| == |next| && e < |next| && prev[e] == NULL && next[e] == NULL
    ensures Dll(prev, next, [e])
  {
  }

  lemma DllAppend(prev: seq<int>, next: seq<int>, s: seq<nat>, e: nat)
    requires Dll(prev, next, s) && s != [] && e < |next| && e !in s
    ensures Dll(prev[e := s[|s| - 1]], next[s[|s| - 1] := e][e := NULL], s + [e])
  {
    var last := s[|s| - 1];
    var t, p, n := s + [e], prev[e := last], next[last := e][e := NULL];
    forall i | 0 <= i < |t|
      ensures p[t[i]] == At(t, i - 1) && n[t[i]] == At(t, i + 1)
    {
      if i < |s| {
        assert t[i] == s[i] && prev[s[i]] == At(s, i - 1) && next[s[i]] == At(s, i + 1);
      }
    }
  }

  /** The fields after the neighbours of s[k] have been joined. */
  function Unlink(field: seq<int>, at: int, x: int): seq<int>
    requires at < |field|
  {
    if at >= 0 then field[at := x] else field
  }

  lemma WithoutAt(s: seq<nat>, k: nat, i: int)
    requires k < |s|
    ensures At(Without(s, k), i) == if i < k then At(s, i) else At(s, i + 1)
  {
  }

  lemma DllRemove(prev: seq<int>, next: seq<int>, s: seq<nat>, k: nat)
    requires Dll(prev, next, s) && k < |s|
    ensures prev[s[k]] == At(s, k - 1) && next[s[k]] == At(s, k + 1)
    ensures Dll(Unlink(prev, At(s, k + 1), At(s, k - 1)), Unlink(next, At(s, k - 1), At(s, k + 1)), Without(s, k))
  {
    var t := Without(s, k);
    var p, n := Unlink(prev, At(s, k + 1), At(s, k - 1)), Unlink(next, At(s, k - 1), At(s, k + 1));
    assert prev[s[k]] == At(s, k - 1) && next[s[k]] == At(s, k + 1);
    forall i | 0 <= i < |t|
      ensures t[i] < |n| && p[t[i]] == At(t, i - 1) && n[t[i]] == At(t, i + 1)
    {
      WithoutAt(s, k, i);
      WithoutAt(s, k, i - 1);
      WithoutAt(s, k, i + 1);
      var j := if i < k then i else i + 1;
      assert t[i] == s[j] && prev[s[j]] == At(s, j - 1) && next[s[j]] == At(s, j + 1);
    }
    forall i, j | 0 <= i < j < |t|
      ensures t[i] != t[j]
    {
      WithoutAt(s, k, i);
      WithoutAt(s, k, j);
    }
  }

  lemma WithoutMembers(s: seq<nat>, k: nat)
    requires k < |s| && Distinct(s)
    ensures forall p :: p in Without(s, k) <==> p in s && p != s[k]
  {
    assert s == s[..k] + [s[k]] + s[k + 1..];
    assert s[k] !in Without(s, k);
  }

  lemma InsertAt(s: seq<nat>, k: nat, x: nat, i: int)
    requires k <= |s|
    ensures At(Insert(s, k, x), i) == if i < k then At(s, i) else if i == k then x else At(s, i - 1)
  {
  }

  lemma InsertMembers(s: seq<nat>, k: nat, x: nat)
    requires k <= |s|
    ensures forall p :: p in Insert(s, k, x) <==> p in s || p == x
  {
    assert s == s[..k] + s[k..];
  }

  /** `x` linked in between s[k - 1] and s[k]. */
  lemma DllInsert(prev: seq<int>, next: seq<int>, s: seq<nat>, k: nat, x: nat)
    requires Dll(prev, next, s) && k <= |s| && x < |next| && x !in s
    ensures Dll(Unlink(prev[x := At(s, k - 1)], At(s, k), x), Unlink(next[x := At(s, k)], At(s, k - 1), x), Insert(s, k, x))
  {
    var t := Insert(s, k, x);
    var p, n := Unlink(prev[x := At(s, k - 1)], At(s, k), x), Unlink(next[x := At(s, k)], At(s, k - 1), x);
    forall i | 0 <= i < |t|
      ensures t[i] < |n| && p[t[i]] == At(t, i - 1) && n[t[i]] == At(t, i + 1)
    {
      DllInsertAt(prev, next, s, k, x, i);
    }
    forall i, j | 0 <= i < j < |t|
      ensures t[i] != t[j]
    {
      InsertAt(s, k, x, i);
      InsertAt(s, k, x, j);
    }
  }

  lemma DllInsertAt(prev: seq<int>, next: seq<int>, s: seq<nat>, k: nat, x: nat, i: nat)
    requires Dll(prev, next, s) && k <= |s| && x < |next| && x !in s && i <= |s|
    ensures var t := Insert(s, k, x);
            && t[i] < |next|
            && Unlink(prev[x := At(s, k - 1)], At(s, k), x)[t[i]] == At(t, i - 1)
            && Unlink(next[x := At(s, k)], At(s, k - 1), x)[t[i]] == At(t, i + 1)
  {
    InsertAt(s, k, x, i);
    InsertAt(s, k, x, i - 1);
    InsertAt(s, k, x, i + 1);
    if i != k {
      var j := if i < k then i else i - 1;
      assert s[j] in s && prev[s[j]] == At(s, j - 1) && next[s[j]] == At(s, j + 1);
      LinkedTo(prev, s, k, j, x, At(s, k - 1));
      LinkedFrom(next, s, k, j, x, At(s, k));
    }
  }

  /** The element before an old one, once `x` stands before s[k]. */
  lemma LinkedTo(prev: seq<int>, s: seq<nat>, k: nat, j: nat, x: nat, y: int)
    requires Within(s, |prev|) && Distinct(s) && k <= |s| && j < |s| && x < |prev| && x !in s && prev[s[j]] == At(s, j - 1)
    ensures Unlink(prev[x := y], At(s, k), x)[s[j]] == if j == k then x else At(s, j - 1)
  {
    assert s[j] in s;
  }

  /** The element behind an old one, once `x` stands behind s[k - 1]. */
  lemma LinkedFrom(next: seq<int>, s: seq<nat>, k: nat, j: nat, x: nat, y: int)
    requires Within(s, |next|) && Distinct(s) && k <= |s| && j < |s| && x < |next| && x !in s && next[s[j]] == At(s, j + 1)
    ensures Unlink(next[x := y], At(s, k - 1), x)[s[j]] == if j == k - 1 then x else At(s, j + 1)
  {
    assert s[j] in s;
  }

  /** The last slot joined to the first, and cut open before s[k]. */
  lemma DllRotate(prev: seq<int>, next: seq<int>, s: seq<nat>, k: nat)
    requires Dll(prev, next, s) && 0 < k < |s|
    ensures Dll(prev[s[k] := NULL][s[0] := s[|s| - 1]], next[s[|s| - 1] := s[0]][s[k - 1] := NULL], s[k..] + s[..k])
  {
    var t := s[k..] + s[..k];
    var p, n := prev[s[k] := NULL][s[0] := s[|s| - 1]], next[s[|s| - 1] := s[0]][s[k - 1] := NULL];
    forall i | 0 <= i < |t|
      ensures t[i] < |n| && p[t[i]] == At(t, i - 1) && n[t[i]] == At(t, i + 1)
    {
      var j := if i < |s| - k then i + k else i - (|s| - k);
      assert t[i] == s[j] && prev[s[j]] == At(s, j - 1) && next[s[j]] == At(s, j + 1);
    }
    RotateMembers(s, k);
  }

  lemma RotateMembers(s: seq<nat>, k: nat)
    requires Distinct(s) && k <= |s|
    ensures Distinct(s[k..] + s[..k])
    ensures forall p :: p in s[k..] + s[..k] <==> p in s
  {
    assert s == s[..k] + s[k..];
    var t := s[k..] + s[..k];
    forall i, j | 0 <= i < j < |t|
      ensures t[i] != t[j]
    {
      var a := if i < |s| - k then i + k else i - (|s| - k);
      var b := if j < |s| - k then j + k else j - (|s| - k);
      assert t[i] == s[a] && t[j] == s[b] && a != b;
    }
  }
}
