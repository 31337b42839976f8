/**
 Whole runs of two event queues, one finding timeout queues through the map and one along the sorted list:
 they hold the same events in the same queues, in the same order, due at the same times.  Events go by
 name, the number of the levq_add that made them, since their slots differ.
 */
module EventSessions {
  import opened Lists
  import opened TimeoutLists
  import opened EventSlots
  import opened EventState
  import opened EventExpiry
  import opened EventOps
  import opened EventCalls
  import opened EventRuns
  import opened EventLookup
  import opened EventTurns
  import opened EventTwins

  // ---------------------------------------------------------------- sessions

  /** An event queue with the names of its events; `next` is the next name. */
  datatype Session = Session(s: State, names: map<nat, nat>, next: nat)

  /** The slot a name stands for, one outside the buffers if it stands for none. */
  ghost function SlotOf(x: Session, n: nat): nat {
    if n in x.names then x.names[n] else |x.s.v.role|
  }

  /** The operation with slots for names. */
  ghost function OnSlots(x: Session, op: Op): Op {
    match op
    case DeleteOp(n) => DeleteOp(SlotOf(x, n))
    case TimeoutOp(n, ms) => TimeoutOp(SlotOf(x, n), ms)
    case ActivateOp(n) => ActivateOp(SlotOf(x, n))
    case CancelOp(n) => CancelOp(SlotOf(x, n))
    case _ => op
  }

  /** The names of events that are still there. */
  ghost function Left(names: map<nat, nat>, s: State): map<nat, nat> {
    map n | n in names && IsEvent(s, names[n]) :: names[n]
  }

  ghost function Perform(x: Session, op: Op): (r: Session)
    requires Whole(x.s)
    ensures Whole(r.s)
  {
    var s := Next(x.s, OnSlots(x, op));
    var (names, next) := Named(Left(x.names, s), x.next, Made(x.s, op));
    Session(s, names, next)
  }

  ghost function Play(x: Session, ops: seq<Op>): (r: Session)
    requires Whole(x.s)
    ensures Whole(r.s)
    decreases |ops|
  {
    if ops == [] then x else Play(Perform(x, ops[0]), ops[1..])
  }

  /** The same names stand for counterparts, and every event has a name. */
  ghost predicate NamesAlike(names: map<nat, nat>, names': map<nat, nat>, next: nat, f: map<nat, nat>) {
    && names'.Keys == names.Keys
    && (forall n {:trigger names[n]} {:trigger names'[n]} :: n in names ==>
          n < next && names[n] in f && names'[n] == f[names[n]])
    && forall e {:trigger e in f} :: e in f ==> e in names.Values
  }

  /** The two sessions are alike by way of `f`. */
  ghost predicate RelatedBy(x: Session, y: Session, f: map<nat, nat>) {
    Same(x.s, y.s, f) && x.next == y.next && NamesAlike(x.names, y.names, x.next, f)
  }

  ghost predicate Related(x: Session, y: Session) {
    exists f :: RelatedBy(x, y, f)
  }

  lemma MadeOnSlots(x: Session, op: Op)
    requires Whole(x.s)
    ensures Made(x.s, OnSlots(x, op)) == Made(x.s, op)
  {
    match op {
      case DeleteOp(n) =>
      case TimeoutOp(n, ms) =>
      case ActivateOp(n) =>
      case CancelOp(n) =>
      case _ =>
    }
  }

  lemma NamedAlike(x: Session, y: Session, f: map<nat, nat>, op: Op)
    requires Whole(x.s) && Whole(y.s) && RelatedBy(x, y, f)
    ensures OpsAlike(x.s, y.s, f, OnSlots(x, op), OnSlots(y, op))
    ensures Made(x.s, OnSlots(x, op)) == Made(x.s, op) && Made(y.s, OnSlots(y, op)) == Made(y.s, op)
  {
    MadeOnSlots(x, op);
    MadeOnSlots(y, op);
    LengthAlike(x.s, y.s, f);
    assert Alike(Handles, x.s, y.s, f);
    forall n: nat
      ensures Twins(x.s, y.s, f, SlotOf(x, n), SlotOf(y, n))
    {
      if n in x.names {
        assert x.names[n] in f;
      }
    }
  }

  /** The names left by an operation that makes no event. */
  lemma NamesLeft(names: map<nat, nat>, names': map<nat, nat>, next: nat, f: map<nat, nat>, s: State, t: State, g: map<nat, nat>)
    requires NamesAlike(names, names', next, f) && OneToOne(f) && PartOf(g, f) && Matches(s, t, g)
    ensures NamesAlike(Left(names, s), Left(names', t), next, g)
  {
    forall n | n in names
      ensures IsEvent(s, names[n]) <==> IsEvent(t, names'[n])
      ensures IsEvent(s, names[n]) ==> names[n] in g && names'[n] == g[names[n]]
    {
      NameLeft(names[n], names'[n], f, s, t, g);
    }
    forall e | e in g
      ensures e in Left(names, s).Values
    {
      assert e in f;
      var n :| n in names && names[n] == e;
      assert IsEvent(s, e);
      assert Left(names, s)[n] == e;
    }
    assert Left(names', t).Keys == Left(names, s).Keys;
  }

  lemma NameLeft(a: nat, b: nat, f: map<nat, nat>, s: State, t: State, g: map<nat, nat>)
    requires OneToOne(f) && PartOf(g, f) && Matches(s, t, g) && a in f && b == f[a]
    ensures IsEvent(s, a) <==> IsEvent(t, b)
    ensures IsEvent(s, a) ==> a in g && g[a] == b
  {
    if IsEvent(t, b) {
      var e :| e in g && g[e] == b;
      assert f[e] == f[a];
    }
    if IsEvent(s, a) {
      assert g[a] == b;
    }
  }

  /** All events are still there. */
  lemma NamesStay(names: map<nat, nat>, names': map<nat, nat>, next: nat, f: map<nat, nat>, s: State, t: State, g: map<nat, nat>)
    requires NamesAlike(names, names', next, f) && PartOf(f, g) && Matches(s, t, g)
    ensures Left(names, s) == names && Left(names', t) == names'
  {
    forall n | n in names
      ensures IsEvent(s, names[n]) && IsEvent(t, names'[n])
    {
      assert names[n] in f;
      assert names[n] in g && g[names[n]] == names'[n];
    }
  }

  lemma {:induction false} GrownHasAll(f: map<nat, nat>, a: seq<nat>, b: seq<nat>)
    requires |a| == |b| && NewOnes(f, a, b)
    ensures PartOf(f, Grown(f, a, b))
    decreases |a|
  {
    if a != [] {
      var f1 := f[a[0] := b[0]];
      GrownHasAll(f1, a[1..], b[1..]);
      forall e | e in f
        ensures e in Grown(f, a, b) && Grown(f, a, b)[e] == f[e]
      {
        assert e in f1;
      }
    }
  }

  /** The names given to new events. */
  lemma {:induction false} NamesMore(names: map<nat, nat>, names': map<nat, nat>, next: nat, f: map<nat, nat>, a: seq<nat>, b: seq<nat>)
    requires NamesAlike(names, names', next, f) && |a| == |b| && NewOnes(f, a, b)
    ensures Named(names, next, a).1 == Named(names', next, b).1
    ensures NamesAlike(Named(names, next, a).0, Named(names', next, b).0, Named(names, next, a).1, Grown(f, a, b))
    decreases |a|
  {
    if a != [] {
      NamesAdd(names, names', next, f, a[0], b[0]);
      NamesMore(names[next := a[0]], names'[next := b[0]], next + 1, f[a[0] := b[0]], a[1..], b[1..]);
    }
  }

  lemma NamesAdd(names: map<nat, nat>, names': map<nat, nat>, next: nat, f: map<nat, nat>, p: nat, q: nat)
    requires NamesAlike(names, names', next, f) && p !in f
    ensures NamesAlike(names[next := p], names'[next := q], next + 1, f[p := q])
  {
    var g := f[p := q];
    forall e | e in g
      ensures e in names[next := p].Values
    {
      if e == p {
        assert names[next := p][next] == p;
      } else {
        assert e in f;
        var n :| n in names && names[n] == e;
        assert names[next := p][n] == e;
      }
    }
  }

  lemma PerformAlike(x: Session, y: Session, op: Op)
    requires Whole(x.s) && Whole(y.s) && Related(x, y)
    ensures Related(Perform(x, op), Perform(y, op))
  {
    var f :| RelatedBy(x, y, f);
    NamedAlike(x, y, f, op);
    var g := SameNext(x.s, y.s, f, OnSlots(x, op), OnSlots(y, op));
    var s, t := Next(x.s, OnSlots(x, op)), Next(y.s, OnSlots(y, op));
    NextNames(x, y, f, s, t, g, Made(x.s, op), Made(y.s, op));
    assert RelatedBy(Perform(x, op), Perform(y, op), g);
  }

  /** The new events get the next names. */
  ghost function Named(names: map<nat, nat>, next: nat, made: seq<nat>): (map<nat, nat>, nat)
    decreases |made|
  {
    if made == [] then (names, next) else Named(names[next := made[0]], next + 1, made[1..])
  }

  lemma NextNames(x: Session, y: Session, f: map<nat, nat>, s: State, t: State, g: map<nat, nat>, a: seq<nat>, b: seq<nat>)
    requires RelatedBy(x, y, f) && Same(s, t, g) && Follows(g, f, a, b)
    ensures var (m, n) := Named(Left(x.names, s), x.next, a);
            var (m', n') := Named(Left(y.names, t), y.next, b);
            n == n' && NamesAlike(m, m', n, g)
  {
    assert Alike(Handles, s, t, g) && Alike(Handles, x.s, y.s, f);
    if a == [] {
      NamesLeft(x.names, y.names, x.next, f, s, t, g);
    } else {
      GrownHasAll(f, a, b);
      NamesStay(x.names, y.names, x.next, f, s, t, g);
      NamesMore(x.names, y.names, x.next, f, a, b);
    }
  }

  lemma {:induction false} PlaysAgree(x: Session, y: Session, ops: seq<Op>)
    requires Whole(x.s) && Whole(y.s) && Related(x, y)
    ensures Related(Play(x, ops), Play(y, ops))
    decreases |ops|
  {
    if ops != [] {
      PerformAlike(x, y, ops[0]);
      PlaysAgree(Perform(x, ops[0]), Perform(y, ops[0]), ops[1..]);
    }
  }

  /** A name stands for the event in this place of the queue of `ms`. */
  ghost predicate StandsAt(x: Session, n: nat, ms: int, i: nat) {
    n in x.names && ms in x.s.v.q.part && i < |x.s.v.q.part[ms]| && x.s.v.q.part[ms][i] == x.names[n]
  }

  /**
   After any run by names of two related sessions, one looking up by the map and one along the list: the
   same events are there, with the same flags, ready or not, in the same places of the same queues and due
   at the same times, and equally many slots are free.
   */
  lemma LookupsAgree(x0: Session, y0: Session, ops: seq<Op>, x: Session, y: Session)
    requires Whole(x0.s) && Whole(y0.s) && Related(x0, y0) && x == Play(x0, ops) && y == Play(y0, ops)
    ensures x.names.Keys == y.names.Keys && x.s.v.q.part.Keys == y.s.v.q.part.Keys
    ensures forall n, ms, i {:trigger StandsAt(x, n, ms, i)} :: StandsAt(x, n, ms, i) <==> StandsAt(y, n, ms, i)
    ensures forall n {:trigger x.names[n]} :: n in x.names ==>
              && BitsOf(x.s, x.names[n]) == BitsOf(y.s, y.names[n])
              && (x.names[n] in x.s.v.ready <==> y.names[n] in y.s.v.ready)
              && (InPart(x.s, x.names[n]) ==> DueOf(x.s, x.names[n]) == DueOf(y.s, y.names[n]))
    ensures forall e: nat :: IsEvent(x.s, e) ==> e in x.names.Values
    ensures |x.s.v.free| == |y.s.v.free|
  {
    PlaysAgree(x0, y0, ops);
    var f :| RelatedBy(x, y, f);
    FreeAlike(x.s, y.s, f);
    assert Alike(Handles, x.s, y.s, f) && Alike(Parts, x.s, y.s, f);
    forall n | n in x.names
      ensures BitsOf(x.s, x.names[n]) == BitsOf(y.s, y.names[n])
      ensures x.names[n] in x.s.v.ready <==> y.names[n] in y.s.v.ready
      ensures InPart(x.s, x.names[n]) ==> DueOf(x.s, x.names[n]) == DueOf(y.s, y.names[n])
    {
      EventAlike(x.s, y.s, f, x.names[n]);
    }
    forall n, ms, i
      ensures StandsAt(x, n, ms, i) <==> StandsAt(y, n, ms, i)
    {
      PlacesAlike(x, y, f, n, ms, i);
    }
  }

  lemma PlacesAlike(x: Session, y: Session, f: map<nat, nat>, n: nat, ms: int, i: nat)
    requires OneToOne(f) && PartsRenamed(x.s.v.q.part, f, y.s.v.q.part) && NamesAlike(x.names, y.names, x.next, f)
    ensures StandsAt(x, n, ms, i) <==> StandsAt(y, n, ms, i)
  {
    if n in x.names && ms in x.s.v.q.part && i < |x.s.v.q.part[ms]| {
      assert Renamed(x.s.v.q.part[ms], f, y.s.v.q.part[ms]);
      assert f[x.s.v.q.part[ms][i]] == y.s.v.q.part[ms][i] && f[x.names[n]] == y.names[n];
    } else if ms in x.s.v.q.part {
      assert Renamed(x.s.v.q.part[ms], f, y.s.v.q.part[ms]);
    }
  }

  /** A new session. */
  ghost function Fresh(useMap: bool, now: int): Session {
    Session(Init(useMap, now), map[], 0)
  }

  /** States without slots are alike. */
  lemma NothingAlike(s: State, t: State, f: map<nat, nat>)
    requires FiguresOf(s) == FiguresOf(t) && s.v.role == [] && t.v.role == [] && f == map[]
    requires s.v.q.part == map[] && t.v.q.part == map[]
    ensures Same(s, t, f)
  {
    SameIf(s, t, f);
  }

  lemma InitAlike(now: int, f: map<nat, nat>)
    requires f == map[]
    ensures Same(Init(true, now), Init(false, now), f)
  {
    NothingAlike(Init(true, now), Init(false, now), f);
  }

  lemma NoNamesAlike(names: map<nat, nat>, f: map<nat, nat>)
    requires names == map[] && f == map[]
    ensures NamesAlike(names, names, 0, f)
  {
  }

  /** New sessions are related, whichever way they look up. */
  lemma FreshRelated(x: Session, y: Session, now: int)
    requires x == Fresh(true, now) && y == Fresh(false, now)
    ensures Related(x, y)
  {
    var f: map<nat, nat> := map[];
    InitAlike(now, f);
    NoNamesAlike(x.names, f);
    assert RelatedBy(x, y, f);
  }
}
