/**
 Working off the ready list of an event queue: what becomes of its events, whatever their order on the
 list, and that two queues alike up to a renaming of slots stay so.
 */
module EventTurns {
  import opened Lists
  import opened TimeoutLists
  import opened TimeoutState
  import opened EventSlots
  import opened EventState
  import opened EventProcess
  import opened EventExpiry
  import opened EventIds
  import opened EventOps
  import opened EventCalls
  import opened EventRuns
  import opened EventLookup

  // ---------------------------------------------------------------- working off the ready list

  /** The loop of sys_evq_loop over the whole ready list, nothing else being asked for meanwhile. */
  ghost function HandleAll(s: State): (r: State)
    requires Whole(s)
    ensures Whole(r) && r.v.ready == []
    decreases |s.v.ready|
  {
    if s.v.ready == [] then s else HandleAll(Drain(s))
  }

  /** An event that does not outlive its turn. */
  predicate Leaving(bits: (Flags, bool)) { !bits.1 || bits.0.oneshot }

  ghost function Gone(s: State): set<nat> {
    set e | e in s.v.ready && Leaving(BitsOf(s, e))
  }

  ghost function ReadySet(s: State): set<nat> {
    set e | e in s.v.ready
  }

  function Cleared(bits: (Flags, bool)): (Flags, bool) { (Unmarked(bits.0), bits.1) }

  ghost function Kept(es: seq<nat>, gone: set<nat>): seq<nat> {
    if es == [] then []
    else (if es[0] in gone then [] else [es[0]]) + Kept(es[1..], gone)
  }

  /** The queues without the events `gone`; a queue left empty goes too. */
  ghost predicate PartsKept(part: map<int, seq<nat>>, gone: set<nat>, part': map<int, seq<nat>>) {
    && (forall ms {:trigger ms in part'} {:trigger ms in part} :: ms in part' <==> ms in part && Kept(part[ms], gone) != [])
    && forall ms {:trigger part'[ms]} :: ms in part' ==> part'[ms] == Kept(part[ms], gone)
  }

  datatype Effect = Events | Flagging | Queued | Dues | Counts

  /** What becomes of the state when the events `done` have had their turn and `gone` of them have gone. */
  ghost predicate Worked(w: Effect, s: State, r: State, gone: set<nat>, done: set<nat>) {
    match w
    case Events => forall e: nat {:trigger IsEvent(r, e)} {:trigger IsEvent(s, e)} :: IsEvent(r, e) <==> IsEvent(s, e) && e !in gone
    case Flagging => forall e: nat {:trigger BitsOf(r, e)} :: IsEvent(r, e) ==>
                       BitsOf(r, e) == if e in done then Cleared(BitsOf(s, e)) else BitsOf(s, e)
    case Queued => PartsKept(s.v.q.part, gone, r.v.q.part)
    case Dues => forall e: nat {:trigger DueOf(r, e)} :: IsEvent(r, e) ==> DueOf(r, e) == DueOf(s, e)
    case Counts => FiguresOf(r) == FiguresOf(s).(tally := Tally(s) + |gone|)
  }

  ghost predicate Handled(s: State, r: State, gone: set<nat>, done: set<nat>) {
    forall w {:trigger Worked(w, s, r, gone, done)} :: Worked(w, s, r, gone, done)
  }

  lemma HandledIf(s: State, r: State, gone: set<nat>, done: set<nat>)
    requires Worked(Events, s, r, gone, done) && Worked(Flagging, s, r, gone, done) && Worked(Queued, s, r, gone, done)
    requires Worked(Dues, s, r, gone, done) && Worked(Counts, s, r, gone, done)
    ensures Handled(s, r, gone, done)
  {
    forall w
      ensures Worked(w, s, r, gone, done)
    {
      match w {
        case Events =>
        case Flagging =>
        case Queued =>
        case Dues =>
        case Counts =>
      }
    }
  }

  // ---------------------------------------------------------------- events leaving queues

  lemma {:induction false} KeptAll(es: seq<nat>, gone: set<nat>)
    requires forall e :: e in es ==> e !in gone
    ensures Kept(es, gone) == es
  {
    if es != [] {
      assert es[0] in es && forall e :: e in es[1..] ==> e in es;
      KeptAll(es[1..], gone);
      assert es == [es[0]] + es[1..];
    }
  }

  lemma {:induction false} KeptOne(es: seq<nat>, e: nat)
    requires e in es && Distinct(es)
    ensures Kept(es, {e}) == Drop(es, e)
    decreases |es|
  {
    if es[0] == e {
      assert forall x :: x in es[1..] ==> x != e;
      KeptAll(es[1..], {e});
      assert Drop(es, e) == es[1..];
    } else {
      assert e in es[1..];
      KeptOne(es[1..], e);
      var k := IndexOf(es[1..], e);
      assert Drop(es, e) == [es[0]] + Drop(es[1..], e);
    }
  }

  lemma {:induction false} KeptTwice(es: seq<nat>, a: set<nat>, b: set<nat>)
    ensures Kept(Kept(es, a), b) == Kept(es, a + b)
  {
    if es != [] {
      KeptTwice(es[1..], a, b);
      var rest := Kept(es[1..], a);
      if es[0] in a {
        assert Kept(es, a) == rest;
      } else {
        assert Kept(es, a) == [es[0]] + rest && ([es[0]] + rest)[1..] == rest;
      }
      assert Kept(es, a + b) == (if es[0] in a + b then [] else [es[0]]) + Kept(es[1..], a + b);
    }
  }

  ghost predicate NoneEmpty(part: map<int, seq<nat>>) {
    forall ms :: ms in part ==> part[ms] != []
  }

  lemma QueuesNotEmpty(s: State)
    requires Inv(s)
    ensures NoneEmpty(s.v.q.part)
  {
    assert Holds(Contents, s);
    forall ms | ms in s.v.q.part
      ensures s.v.q.part[ms] != []
    {
      assert OneOk(s.mem, s.v.q, ms, s.now);
    }
  }

  lemma NothingLeaves(part: map<int, seq<nat>>, gone: set<nat>)
    requires NoneEmpty(part) && forall ms, e :: ms in part && e in part[ms] ==> e !in gone
    ensures PartsKept(part, gone, part)
  {
    forall ms | ms in part
      ensures Kept(part[ms], gone) == part[ms]
    {
      KeptAll(part[ms], gone);
    }
  }

  lemma OneLeaves(part: map<int, seq<nat>>, ms: int, e: nat)
    requires NoneEmpty(part) && ms in part && e in part[ms] && Distinct(part[ms])
    requires forall m :: m in part && m != ms ==> e !in part[m]
    ensures PartsKept(part, {e}, PartDel(part, ms, e))
  {
    KeptOne(part[ms], e);
    forall m | m in part && m != ms
      ensures Kept(part[m], {e}) == part[m]
    {
      KeptAll(part[m], {e});
    }
  }

  lemma LeaveTwice(part: map<int, seq<nat>>, a: set<nat>, part1: map<int, seq<nat>>, b: set<nat>, part2: map<int, seq<nat>>)
    requires PartsKept(part, a, part1) && PartsKept(part1, b, part2)
    ensures PartsKept(part, a + b, part2)
  {
    forall ms
      ensures ms in part2 <==> ms in part && Kept(part[ms], a + b) != []
      ensures ms in part2 ==> part2[ms] == Kept(part[ms], a + b)
    {
      if ms in part {
        KeptTwice(part[ms], a, b);
      }
    }
  }

  // ---------------------------------------------------------------- one turn

  /** The figures and events after the turn of the first ready event, which stays. */
  lemma StayHandled(s: State)
    requires Whole(s) && s.v.ready != [] && !Leaving(BitsOf(s, s.v.ready[0]))
    ensures Handled(s, Drain(s), {}, {s.v.ready[0]})
  {
    DequeueKeeps(s);
    Shape(s);
    QueuesNotEmpty(s);
    NothingLeaves(s.v.q.part, {});
    HandledIf(s, Drain(s), {}, {s.v.ready[0]});
  }

  /** The same for a deleted event: its slot is freed. */
  lemma DeletedHandled(s: State)
    requires Whole(s) && s.v.ready != [] && !BitsOf(s, s.v.ready[0]).1
    ensures Handled(s, Drain(s), {s.v.ready[0]}, {s.v.ready[0]})
  {
    DequeueKeeps(s);
    Shape(s);
    var e := s.v.ready[0];
    Unattached(s, e);
    QueuesNotEmpty(s);
    NothingLeaves(s.v.q.part, {e});
    HandledIf(s, Drain(s), {e}, {e});
  }

  lemma Unattached(s: State, e: nat)
    requires Inv(s) && IsEvent(s, e) && !BitsOf(s, e).1
    ensures Unqueued(s.v.q, e)
  {
    Shape(s);
    assert Holds(Slots, s);
    assert SlotOk(e, s.v, s.mem.w4, s.flags, s.attached, s.evId);
    NotQueued(s, e);
  }

  /** And for a one-shot event, which leaves its queue before. */
  lemma OneshotHandled(s: State)
    requires Whole(s) && s.v.ready != [] && BitsOf(s, s.v.ready[0]).1 && BitsOf(s, s.v.ready[0]).0.oneshot
    ensures Handled(s, Drain(s), {s.v.ready[0]}, {s.v.ready[0]})
  {
    DequeueKeeps(s);
    Shape(s);
    var e, s1 := s.v.ready[0], Dequeue(s);
    Shape(s1);
    DequeuedHead(s);
    OneshotLeaves(s, s1, e);
    OneshotQueues(s1, e);
    HandledIf(s, Drain(s), {e}, {e});
  }

  /** evq_del and levq_del_event of an event whose turn has come. */
  lemma OneshotLeaves(s: State, s1: State, e: nat)
    requires Whole(s) && Whole(s1) && IsEvent(s, e) && IsEvent(s1, e)
    requires e < |s1.attached| && s1.attached[e] && e < |s1.flags| && !s1.flags[e].active
    requires s.mem.Sized(|s.v.role|) && s.v.ready != [] && e == s.v.ready[0]
    requires e < |s.v.role| == |s.flags| == |s.attached| && s1 == Dequeue(s) && s.attached[e]
    ensures var s2 := EvqDel(s1, e);
            && Whole(s2) && IsTaken(s2, e) && s2.mem.Sized(|s2.v.role|)
            && var r := Release(s2, e);
               && Worked(Events, s, r, {e}, {e}) && Worked(Flagging, s, r, {e}, {e}) && Worked(Dues, s, r, {e}, {e})
               && Worked(Counts, s, r, {e}, {e}) && r.v.q.part == DelTimeout(s1, e).v.q.part
  {
    var s0 := DelTimeout(s1, e);
    Shape(s0);
    DelQuiet(s1, e);
    DetachSide(s0, e);
    Shape(EvqDel(s1, e));
  }

  /** timeout_del changes no flags, and no times that count. */
  lemma DelQuiet(s: State, e: nat)
    requires Whole(s) && IsEvent(s, e)
    ensures FiguresOf(DelTimeout(s, e)) == FiguresOf(s)
    ensures forall x: nat {:trigger IsEvent(DelTimeout(s, e), x)} :: IsEvent(DelTimeout(s, e), x) <==> IsEvent(s, x)
    ensures forall x: nat {:trigger BitsOf(DelTimeout(s, e), x)} :: BitsOf(DelTimeout(s, e), x) == BitsOf(s, x)
    ensures forall x: nat {:trigger DueOf(DelTimeout(s, e), x)} :: IsEvent(s, x) ==> DueOf(DelTimeout(s, e), x) == DueOf(s, x)
  {
    Shape(s);
    if s.mem.w4[e] != NULL {
      DelTally(s, e);
    }
  }

  lemma OneshotQueues(s: State, e: nat)
    requires Whole(s) && IsEvent(s, e)
    ensures PartsKept(s.v.q.part, {e}, DelTimeout(s, e).v.q.part)
  {
    Shape(s);
    QueuesNotEmpty(s);
    if s.mem.w4[e] == NULL {
      NotQueued(s, e);
      NothingLeaves(s.v.q.part, {e});
    } else {
      var ms, k := EventState.Queued(s, e);
      DelTally(s, e);
      OneLeaves(s.v.q.part, ms, e);
    }
  }

  lemma TurnHandled(s: State)
    requires Whole(s) && s.v.ready != []
    ensures var e := s.v.ready[0];
            Handled(s, Drain(s), if Leaving(BitsOf(s, e)) then {e} else {}, {e})
  {
    var e := s.v.ready[0];
    if !BitsOf(s, e).1 {
      DeletedHandled(s);
    } else if BitsOf(s, e).0.oneshot {
      OneshotHandled(s);
    } else {
      StayHandled(s);
    }
  }

  lemma HandledTwice(s: State, s1: State, r: State, a: set<nat>, b: set<nat>, c: set<nat>, d: set<nat>)
    requires Handled(s, s1, a, b) && Handled(s1, r, c, d) && a !! c && b !! d
    ensures Handled(s, r, a + c, b + d)
  {
    assert Worked(Events, s, s1, a, b) && Worked(Events, s1, r, c, d);
    assert Worked(Flagging, s, s1, a, b) && Worked(Flagging, s1, r, c, d);
    assert Worked(Queued, s, s1, a, b) && Worked(Queued, s1, r, c, d);
    assert Worked(Dues, s, s1, a, b) && Worked(Dues, s1, r, c, d);
    assert Worked(Counts, s, s1, a, b) && Worked(Counts, s1, r, c, d);
    LeaveTwice(s.v.q.part, a, s1.v.q.part, c, r.v.q.part);
    assert |a + c| == |a| + |c|;
    forall e: nat | IsEvent(r, e)
      ensures BitsOf(r, e) == if e in b + d then Cleared(BitsOf(s, e)) else BitsOf(s, e)
      ensures DueOf(r, e) == DueOf(s, e)
    {
      assert IsEvent(s1, e);
      assert BitsOf(s1, e) == if e in b then Cleared(BitsOf(s, e)) else BitsOf(s, e);
      assert DueOf(s1, e) == DueOf(s, e);
    }
    HandledIf(s, r, a + c, b + d);
  }

  /** The events still ready are those of before, but for the one that had its turn. */
  lemma RestReady(s: State)
    requires Whole(s) && s.v.ready != []
    ensures var e := s.v.ready[0];
            && Drain(s).v.ready == s.v.ready[1..] && e !in s.v.ready[1..]
            && forall x :: x in s.v.ready[1..] ==> BitsOf(Drain(s), x) == BitsOf(s, x)
  {
    TurnHandled(s);
    var e, r := s.v.ready[0], Drain(s);
    var gone := if Leaving(BitsOf(s, e)) then {e} else {};
    assert Holds(Chains, s) && Holds(Slots, s);
    forall x | x in s.v.ready[1..]
      ensures BitsOf(r, x) == BitsOf(s, x) && x != e
    {
      ReadyIsEvent(s, x);
      assert Worked(Events, s, r, gone, {e}) && Worked(Flagging, s, r, gone, {e});
      assert IsEvent(r, x);
    }
  }

  lemma ReadyIsEvent(s: State, x: nat)
    requires Inv(s) && x in s.v.ready
    ensures IsEvent(s, x)
  {
    Shape(s);
    assert Holds(Chains, s) && Holds(Slots, s);
    assert SlotOk(x, s.v, s.mem.w4, s.flags, s.attached, s.evId);
  }

  /** So are those that will go. */
  lemma RestGone(s: State)
    requires Whole(s) && s.v.ready != []
    ensures var e := s.v.ready[0];
            && Gone(s) == Gone(Drain(s)) + (if Leaving(BitsOf(s, e)) then {e} else {})
            && ReadySet(s) == ReadySet(Drain(s)) + {e}
            && e !in Gone(Drain(s)) && e !in ReadySet(Drain(s))
  {
    RestReady(s);
    RestSets(s, Drain(s), s.v.ready[0], s.v.ready[1..]);
  }

  lemma RestSets(s: State, r: State, e: nat, rest: seq<nat>)
    requires s.v.ready == [e] + rest && r.v.ready == rest && e !in rest
    requires forall x :: x in rest ==> BitsOf(r, x) == BitsOf(s, x)
    ensures Gone(s) == Gone(r) + (if Leaving(BitsOf(s, e)) then {e} else {}) && ReadySet(s) == ReadySet(r) + {e}
    ensures e !in Gone(r) && e !in ReadySet(r)
  {
    forall x
      ensures x in s.v.ready <==> x == e || x in rest
    {
    }
  }

  /** What working off the ready list amounts to, whatever its order. */
  lemma {:induction false} HandleAllIs(s: State)
    requires Whole(s)
    ensures Handled(s, HandleAll(s), Gone(s), ReadySet(s))
    decreases |s.v.ready|
  {
    if s.v.ready == [] {
      QueuesNotEmpty(s);
      NothingLeaves(s.v.q.part, {});
      assert Gone(s) == {} && ReadySet(s) == {};
      HandledIf(s, s, {}, {});
    } else {
      HandleAllIs(Drain(s));
      FirstThenRest(s, Drain(s), HandleAll(Drain(s)));
    }
  }

  lemma FirstThenRest(s: State, s1: State, r: State)
    requires Whole(s) && s.v.ready != [] && s1 == Drain(s) && Handled(s1, r, Gone(s1), ReadySet(s1))
    ensures Handled(s, r, Gone(s), ReadySet(s))
  {
    var e := s.v.ready[0];
    var gone := if Leaving(BitsOf(s, e)) then {e} else {};
    TurnHandled(s);
    RestGone(s);
    HandledTwice(s, s1, r, gone, {e}, Gone(s1), ReadySet(s1));
    assert gone + Gone(s1) == Gone(s) && {e} + ReadySet(s1) == ReadySet(s);
  }

  // ---------------------------------------------------------------- on both sides

  /** The renaming of the events that are left. */
  ghost function Rest(f: map<nat, nat>, gone: set<nat>): map<nat, nat> {
    map e | e in f && e !in gone :: f[e]
  }

  lemma {:induction false} KeptRenamed(es: seq<nat>, f: map<nat, nat>, es': seq<nat>, a: set<nat>, b: set<nat>)
    requires Renamed(es, f, es') && forall e {:trigger f[e]} :: e in f ==> (e in a <==> f[e] in b)
    ensures Renamed(Kept(es, a), Rest(f, a), Kept(es', b))
  {
    if es != [] {
      KeptRenamed(es[1..], f, es'[1..], a, b);
      assert f[es[0]] == es'[0];
    }
  }

  /** Events on the ready list are those marked active. */
  lemma ReadyIffActive(s: State, e: nat)
    requires Inv(s) && IsEvent(s, e)
    ensures e in s.v.ready <==> BitsOf(s, e).0.active
  {
    Shape(s);
    assert Holds(Slots, s);
    assert SlotOk(e, s.v, s.mem.w4, s.flags, s.attached, s.evId);
  }

  /** The events that go on one side are the counterparts of those that go on the other. */
  lemma GoneRenamed(s: State, t: State, f: map<nat, nat>)
    requires Whole(s) && Whole(t) && Same(s, t, f)
    ensures forall e {:trigger f[e]} :: e in f ==> (e in Gone(s) <==> f[e] in Gone(t))
    ensures forall e {:trigger f[e]} :: e in f ==> (e in ReadySet(s) <==> f[e] in ReadySet(t))
    ensures |Gone(t)| == |Gone(s)|
  {
    assert Alike(Handles, s, t, f);
    forall e | e in f
      ensures e in Gone(s) <==> f[e] in Gone(t)
      ensures e in ReadySet(s) <==> f[e] in ReadySet(t)
    {
      Counterpart(s, t, f, e);
      ReadyIffActive(s, e);
      ReadyIffActive(t, f[e]);
    }
    forall e | e in Gone(s)
      ensures e in f && f[e] in Gone(t)
    {
      ReadyIsEvent(s, e);
    }
    forall x | x in Gone(t)
      ensures exists e :: e in Gone(s) && e in f && f[e] == x
    {
      ReadyIsEvent(t, x);
      var e :| e in f && f[e] == x;
      assert e in Gone(s);
    }
    ImageSize(f, Gone(s), Gone(t));
  }

  lemma {:induction false} ImageSize(f: map<nat, nat>, a: set<nat>, b: set<nat>)
    requires OneToOne(f) && (forall e :: e in a ==> e in f && f[e] in b)
    requires forall x :: x in b ==> exists e :: e in a && e in f && f[e] == x
    ensures |a| == |b|
  {
    if a == {} {
      assert b == {};
    } else {
      var e :| e in a;
      forall x | x in b - {f[e]}
        ensures exists d :: d in a - {e} && d in f && f[d] == x
      {
        var d :| d in a && d in f && f[d] == x;
        assert d in a - {e};
      }
      ImageSize(f, a - {e}, b - {f[e]});
    }
  }

  /** The ready list worked off, on both sides the same events have their turn and the same are left. */
  lemma SameHandle(s: State, t: State, f: map<nat, nat>)
    requires Whole(s) && Whole(t) && Same(s, t, f)
    ensures Same(HandleAll(s), HandleAll(t), Rest(f, Gone(s)))
  {
    HandleAllIs(s);
    HandleAllIs(t);
    GoneRenamed(s, t, f);
    RestAlike(s, t, HandleAll(s), HandleAll(t), f, Gone(s), ReadySet(s), Gone(t), ReadySet(t));
  }

  lemma RestAlike(s: State, t: State, s': State, t': State, f: map<nat, nat>,
                  a: set<nat>, c: set<nat>, b: set<nat>, d: set<nat>)
    requires Inv(s) && Inv(t) && Same(s, t, f) && Handled(s, s', a, c) && Handled(t, t', b, d) && |a| == |b|
    requires forall e {:trigger f[e]} :: e in f ==> (e in a <==> f[e] in b)
    requires forall e {:trigger f[e]} :: e in f ==> (e in c <==> f[e] in d)
    ensures Same(s', t', Rest(f, a))
  {
    RestHandles(s, t, s', t', f, a, c, b, d);
    RestMarks(s, t, s', t', f, a, c, b, d);
    RestParts(s, t, s', t', f, a, c, b, d);
    RestTimes(s, t, s', t', f, a, c, b, d);
    assert Alike(Numbers, s, t, f);
    assert Worked(Counts, s, s', a, c) && Worked(Counts, t, t', b, d);
    SameIf(s', t', Rest(f, a));
  }

  lemma RestHandles(s: State, t: State, s': State, t': State, f: map<nat, nat>,
                    a: set<nat>, c: set<nat>, b: set<nat>, d: set<nat>)
    requires Same(s, t, f) && Handled(s, s', a, c) && Handled(t, t', b, d)
    requires forall e {:trigger f[e]} :: e in f ==> (e in a <==> f[e] in b)
    ensures Alike(Handles, s', t', Rest(f, a))
  {
    var g := Rest(f, a);
    assert Alike(Handles, s, t, f);
    assert Worked(Events, s, s', a, c) && Worked(Events, t, t', b, d);
    forall e | e in g
      ensures IsEvent(t', g[e])
    {
      assert IsEvent(t, f[e]);
    }
    forall x: nat | IsEvent(t', x)
      ensures x in g.Values
    {
      assert IsEvent(t, x);
      var e :| e in f && f[e] == x;
      assert g[e] == x;
    }
  }

  lemma RestMarks(s: State, t: State, s': State, t': State, f: map<nat, nat>,
                  a: set<nat>, c: set<nat>, b: set<nat>, d: set<nat>)
    requires Same(s, t, f) && Handled(s, s', a, c) && Handled(t, t', b, d)
    requires Alike(Handles, s', t', Rest(f, a))
    requires forall e {:trigger f[e]} :: e in f ==> (e in c <==> f[e] in d)
    ensures Alike(Marks, s', t', Rest(f, a))
  {
    var g := Rest(f, a);
    assert Alike(Marks, s, t, f);
    assert Worked(Flagging, s, s', a, c) && Worked(Flagging, t, t', b, d);
    forall e | e in g
      ensures BitsOf(s', e) == BitsOf(t', g[e])
    {
      assert IsEvent(s', e) && IsEvent(t', g[e]);
      assert BitsOf(s, e) == BitsOf(t, f[e]);
    }
  }

  lemma RestParts(s: State, t: State, s': State, t': State, f: map<nat, nat>,
                  a: set<nat>, c: set<nat>, b: set<nat>, d: set<nat>)
    requires Same(s, t, f) && Handled(s, s', a, c) && Handled(t, t', b, d)
    requires forall e {:trigger f[e]} :: e in f ==> (e in a <==> f[e] in b)
    ensures Alike(Parts, s', t', Rest(f, a))
  {
    assert Alike(Parts, s, t, f);
    assert Worked(Queued, s, s', a, c) && Worked(Queued, t, t', b, d);
    forall ms | ms in s.v.q.part
      ensures Renamed(Kept(s.v.q.part[ms], a), Rest(f, a), Kept(t.v.q.part[ms], b))
    {
      KeptRenamed(s.v.q.part[ms], f, t.v.q.part[ms], a, b);
    }
    forall ms
      ensures ms in s'.v.q.part <==> ms in t'.v.q.part
    {
      assert ms in s.v.q.part <==> ms in t.v.q.part;
    }
    assert t'.v.q.part.Keys == s'.v.q.part.Keys;
  }

  lemma {:induction false} KeptWithin(es: seq<nat>, gone: set<nat>)
    ensures forall e :: e in Kept(es, gone) ==> e in es
  {
    if es != [] { KeptWithin(es[1..], gone); }
  }

  lemma RestTimes(s: State, t: State, s': State, t': State, f: map<nat, nat>,
                  a: set<nat>, c: set<nat>, b: set<nat>, d: set<nat>)
    requires Same(s, t, f) && Handled(s, s', a, c) && Handled(t, t', b, d)
    requires Alike(Handles, s', t', Rest(f, a))
    ensures Alike(Times, s', t', Rest(f, a))
  {
    var g := Rest(f, a);
    assert Alike(Times, s, t, f) && Worked(Queued, s, s', a, c);
    assert Worked(Dues, s, s', a, c) && Worked(Dues, t, t', b, d);
    forall e | e in g && InPart(s', e)
      ensures DueOf(s', e) == DueOf(t', g[e])
    {
      assert IsEvent(s', e) && IsEvent(t', g[e]);
      var ms :| ms in s'.v.q.part && e in s'.v.q.part[ms];
      KeptWithin(s.v.q.part[ms], a);
      assert InPart(s, e);
    }
  }
}
