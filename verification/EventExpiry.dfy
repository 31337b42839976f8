/** timeout_process over all queues: which events fire, when they are due again, and that waiting suffices. */
module EventExpiry {
  import opened Lists
  import opened TimeoutLists
  import opened TimeoutState
  import opened EventSlots
  import opened EventState
  import opened EventProcess

  /** The timeout of the `i`th queue of the list. */
  ghost function Nth(s: State, i: nat): int
    requires i < |s.v.q.tqs| && s.v.q.tqs[i] < |s.mem.w4|
  {
    s.mem.w4[s.v.q.tqs[i]]
  }

  /** The event is in some queue. */
  ghost predicate InPart(s: State, e: nat) {
    exists ms :: ms in s.v.q.part && e in s.v.q.part[ms]
  }

  /** No event of a queue is on the ready list. */
  ghost predicate AllCalm(s: State) {
    forall e: nat {:trigger InPart(s, e)} :: InPart(s, e) ==> e !in s.v.ready
  }

  /** From the `i`th queue on, no event is on the ready list. */
  ghost predicate Ahead(s: State, i: nat) {
    && i <= |s.v.q.tqs| && Within(s.v.q.tqs, |s.mem.w4|)
    && forall j {:trigger Nth(s, j)} :: i <= j < |s.v.q.tqs| ==> Nth(s, j) in s.v.q.part && Calm(s, Nth(s, j))
  }

  /** What FireState leaves alone. */
  ghost predicate SameFrame(s: State, s': State) {
    && s'.v.q.tqs == s.v.q.tqs && s'.v.q.idx == s.v.q.idx && s'.v.q.part.Keys == s.v.q.part.Keys
    && s'.mem.w4 == s.mem.w4 && s'.now == s.now
    && s'.v.role == s.v.role && s'.v.free == s.v.free && s'.v.sync == s.v.sync && s'.v.alive == s.v.alive
    && s'.attached == s.attached && s'.evFree == s.evFree && s'.syncOp == s.syncOp && s'.tqHead == s.tqHead
    && s'.tqMap == s.tqMap && s'.useMap == s.useMap && s'.nevents == s.nevents && s'.evId == s.evId
    && s'.nbufs == s.nbufs && s'.bufIndex == s.bufIndex && s'.bufNevents == s.bufNevents
  }

  /** Queue `ms` has fired between `s` and `s'`. */
  ghost predicate FiredAt(s: State, s': State, ms: int)
    requires ms in s.v.q.part && Within(s.v.q.part[ms], |s.mem.due|) && |s.mem.due| == |s'.mem.due|
  {
    && ms in s'.v.q.part && s'.v.q.part[ms] == Fired(s.mem, s.v.q.part[ms], s.now)
    && forall e {:trigger e in s.v.q.part[ms]} :: e in s.v.q.part[ms] ==>
         && (e in s'.v.ready <==> s.mem.due[e] < s.now + MIN_TIMEOUT)
         && s'.mem.due[e] == if s.mem.due[e] < s.now + MIN_TIMEOUT then s.now + ms else s.mem.due[e]
  }

  /** Queue `ms` has not been touched between `s` and `s'`. */
  ghost predicate SameAt(s: State, s': State, ms: int)
    requires ms in s.v.q.part && Within(s.v.q.part[ms], |s.mem.due|) && |s.mem.due| == |s'.mem.due|
  {
    && ms in s'.v.q.part && s'.v.q.part[ms] == s.v.q.part[ms]
    && forall e {:trigger e in s.v.q.part[ms]} :: e in s.v.q.part[ms] ==>
         s'.mem.due[e] == s.mem.due[e] && (e in s'.v.ready <==> e in s.v.ready)
  }

  /** The event's time has come. */
  ghost predicate Expired(s: State, e: nat) {
    exists ms :: ms in s.v.q.part && e in s.v.q.part[ms] && e < |s.mem.due| && s.mem.due[e] < s.now + MIN_TIMEOUT
  }

  lemma {:induction false} RipeSame(due: seq<int>, due': seq<int>, es: seq<nat>, limit: int)
    requires Within(es, |due|) && |due| == |due'|
    requires forall e :: e in es ==> due'[e] == due[e]
    ensures Ripe(due, es, limit) == Ripe(due', es, limit)
    decreases |es|
  {
    if es != [] {
      assert es[0] in es;
      RipeSame(due, due', es[1..], limit);
    }
  }

  lemma FireOneQueue(s: State, ms: int)
    requires Inv(s) && ms in s.v.q.part && Calm(s, ms)
    ensures Fireable(s, ms) && Inv(FireState(s, ms)) && SameFrame(s, FireState(s, ms))
    ensures Within(s.v.q.part[ms], |s.mem.due|) && |s.mem.due| == |FireState(s, ms).mem.due|
    ensures FiredAt(s, FireState(s, ms), ms)
    ensures forall e :: e in FireState(s, ms).v.ready ==> e in s.v.ready || (e in s.v.q.part[ms] && Expired(s, e))
  {
    FireKeeps(s, ms);
    Facts(s);
    assert OneOk(s.mem, s.v.q, ms, s.now);
    var es := s.v.q.part[ms];
    RipeMembers(s, ms);
    FiredEvents(s, ms);
  }

  lemma RipeMembers(s: State, ms: int)
    requires Fireable(s, ms) && QueueDue(s.mem.due, s.v.q.part[ms], s.now + ms) && Distinct(s.v.q.part[ms])
    ensures forall e {:trigger e in s.v.q.part[ms]} :: e in s.v.q.part[ms] ==>
              (e in RipeOf(s, ms) <==> s.mem.due[e] < s.now + MIN_TIMEOUT)
    ensures forall e :: e in RipeOf(s, ms) ==> e in s.v.q.part[ms]
  {
    var es, k := s.v.q.part[ms], Ripe(s.mem.due, s.v.q.part[ms], s.now + MIN_TIMEOUT);
    RipeIsAll(s.mem.due, es, s.now + MIN_TIMEOUT);
    forall e | e in es
      ensures e in es[..k] <==> s.mem.due[e] < s.now + MIN_TIMEOUT
    {
      var i := IndexOf(es, e);
      assert es[i] == e;
      if i < k { assert es[..k][i] == e; }
    }
  }

  lemma OtherQueue(s: State, ms: int, ms': int)
    requires Inv(s) && ms in s.v.q.part && ms' in s.v.q.part && ms != ms' && Calm(s, ms)
    ensures Fireable(s, ms) && Within(s.v.q.part[ms'], |s.mem.due|) && |s.mem.due| == |FireState(s, ms).mem.due|
    ensures SameAt(s, FireState(s, ms), ms')
  {
    FireKeeps(s, ms);
    EventsAllocated(s, ms');
    var s' := FireState(s, ms);
    FiredEvents(s, ms);
    forall e | e in s.v.q.part[ms']
      ensures s'.mem.due[e] == s.mem.due[e] && (e in s'.v.ready <==> e in s.v.ready)
    {
      NotOther(s, ms, ms', e);
    }
  }

  /** An event of one queue is not among those due of another. */
  lemma NotOther(s: State, ms: int, ms': int, e: nat)
    requires Inv(s) && ms in s.v.q.part && ms' in s.v.q.part && ms != ms' && Fireable(s, ms) && e in s.v.q.part[ms']
    ensures e !in RipeOf(s, ms)
  {
    assert Holds(QueueList, s) && Holds(Contents, s);
    OnlyQueue(s.mem, s.tqHead, s.v.q, s.now, ms', e);
    assert forall p :: p in RipeOf(s, ms) ==> p in s.v.q.part[ms];
  }

  lemma AheadOnce(s: State, i: nat)
    requires Inv(s) && Ahead(s, i) && i < |s.v.q.tqs|
    ensures Nth(s, i) in s.v.q.part && Calm(s, Nth(s, i)) && Fireable(s, Nth(s, i))
    ensures Inv(FireState(s, Nth(s, i))) && SameFrame(s, FireState(s, Nth(s, i)))
    ensures Ahead(FireState(s, Nth(s, i)), i + 1)
  {
    var ms := Nth(s, i);
    FireOneQueue(s, ms);
    var s' := FireState(s, ms);
    forall j | i + 1 <= j < |s'.v.q.tqs|
      ensures Nth(s', j) in s'.v.q.part && Calm(s', Nth(s', j))
    {
      NthDistinct(s, i, j);
      assert Nth(s, j) in s.v.q.part && Calm(s, Nth(s, j));
      OtherQueue(s, ms, Nth(s, j));
    }
  }

  lemma NthDistinct(s: State, i: nat, j: nat)
    requires Inv(s) && i < |s.v.q.tqs| && j < |s.v.q.tqs| && i != j && Within(s.v.q.tqs, |s.mem.w4|)
    ensures Nth(s, i) != Nth(s, j)
  {
    assert Holds(QueueList, s);
    assert s.v.q.tqs[i] in s.v.q.tqs && s.v.q.tqs[j] in s.v.q.tqs;
  }

  /** On the ready list, or due to be put there. */
  ghost predicate Pending(s: State, e: nat) {
    e in s.v.ready || Expired(s, e)
  }

  lemma PendingBefore(s: State, i: nat)
    requires Inv(s) && Ahead(s, i) && i < |s.v.q.tqs|
    ensures Nth(s, i) in s.v.q.part && Fireable(s, Nth(s, i))
    ensures forall e: nat {:trigger Pending(s, e)} :: Pending(FireState(s, Nth(s, i)), e) ==> Pending(s, e)
  {
    assert Nth(s, i) in s.v.q.part && Calm(s, Nth(s, i));
    FireOneQueue(s, Nth(s, i));
    var s1 := FireState(s, Nth(s, i));
    forall e: nat | Pending(s1, e)
      ensures Pending(s, e)
    {
      if e !in s1.v.ready {
        var ms :| ms in s1.v.q.part && e in s1.v.q.part[ms] && e < |s1.mem.due| && s1.mem.due[e] < s1.now + MIN_TIMEOUT;
        OneStep(s, i, ms);
        StillExpired(s, s1, ms, Nth(s, i), e);
      }
    }
  }

  lemma StillExpired(s: State, s1: State, ms: int, fired: int, e: nat)
    requires Sane(s, s1, ms) && s1.now == s.now && e in s.v.q.part[ms] && e !in s1.v.ready
    requires if ms == fired then FiredAt(s, s1, ms) else SameAt(s, s1, ms)
    requires s1.mem.due[e] < s1.now + MIN_TIMEOUT
    ensures Expired(s, e)
  {
  }

  /** The outer loop of timeout_process from the `i`th queue on. */
  ghost function ProcessFrom(s: State, i: nat): (r: State)
    requires Inv(s) && Ahead(s, i)
    ensures Inv(r) && SameFrame(s, r)
    ensures forall e: nat {:trigger Pending(s, e)} :: e in r.v.ready ==> Pending(s, e)
    decreases |s.v.q.tqs| - i
  {
    if i == |s.v.q.tqs| then s
    else
      AheadOnce(s, i);
      PendingBefore(s, i);
      ProcessFrom(FireState(s, Nth(s, i)), i + 1)
  }

  /** Queue `ms` is the `i`th of the list or a later one. */
  ghost predicate Later(s: State, i: nat, ms: int)
    requires Within(s.v.q.tqs, |s.mem.w4|)
  {
    exists j {:trigger Nth(s, j)} :: i <= j < |s.v.q.tqs| && Nth(s, j) == ms
  }

  ghost predicate Sane(s: State, s': State, ms: int) {
    ms in s.v.q.part && Within(s.v.q.part[ms], |s.mem.due|) && |s.mem.due| == |s'.mem.due|
  }

  lemma FiredThenSame(s: State, s1: State, s': State, ms: int)
    requires Sane(s, s1, ms) && Sane(s1, s', ms) && s1.now == s.now
    requires FiredAt(s, s1, ms) && SameAt(s1, s', ms)
    requires forall e :: e in s1.v.q.part[ms] <==> e in s.v.q.part[ms]
    ensures FiredAt(s, s', ms)
  {
  }

  lemma SameThenFired(s: State, s1: State, s': State, ms: int)
    requires Sane(s, s1, ms) && Sane(s1, s', ms) && s1.now == s.now
    requires SameAt(s, s1, ms) && FiredAt(s1, s', ms)
    ensures FiredAt(s, s', ms)
  {
    RipeSame(s.mem.due, s1.mem.due, s.v.q.part[ms], s.now + MIN_TIMEOUT);
  }

  lemma SameThenSame(s: State, s1: State, s': State, ms: int)
    requires Sane(s, s1, ms) && Sane(s1, s', ms)
    requires SameAt(s, s1, ms) && SameAt(s1, s', ms)
    ensures SameAt(s, s', ms)
  {
  }

  lemma EventsAllocated(s: State, ms: int)
    requires Inv(s) && ms in s.v.q.part
    ensures Within(s.v.q.part[ms], |s.mem.due|) && s.mem.Sized(|s.v.role|)
  {
    assert Holds(Sizes, s) && Holds(Contents, s);
    assert OneOk(s.mem, s.v.q, ms, s.now);
  }

  /** What the loop does to each queue: it fires those from the `i`th on and leaves the others. */
  lemma {:induction false} ProcessEach(s: State, i: nat, ms: int)
    requires Inv(s) && Ahead(s, i) && ms in s.v.q.part
    ensures Settled(s, ProcessFrom(s, i), i, ms)
    decreases |s.v.q.tqs| - i
  {
    if i == |s.v.q.tqs| {
      EventsAllocated(s, ms);
      assert Settled(s, s, i, ms);
    } else {
      AheadOnce(s, i);
      var s1 := FireState(s, Nth(s, i));
      ProcessEach(s1, i + 1, ms);
      OneStep(s, i, ms);
      StepAndRest(s, s1, ProcessFrom(s1, i + 1), i, ms);
    }
  }

  /** Queue `ms` has fired if it is the `i`th or a later one, and is as it was otherwise. */
  ghost predicate Settled(s: State, s': State, i: nat, ms: int) {
    && Within(s.v.q.tqs, |s.mem.w4|) && Sane(s, s', ms)
    && if Later(s, i, ms) then FiredAt(s, s', ms) else SameAt(s, s', ms)
  }

  lemma StepAndRest(s: State, s1: State, s': State, i: nat, ms: int)
    requires Inv(s) && Within(s.v.q.tqs, |s.mem.w4|) && i < |s.v.q.tqs| && SameFrame(s, s1) && Sane(s, s1, ms)
    requires if ms == Nth(s, i) then FiredAt(s, s1, ms) else SameAt(s, s1, ms)
    requires Settled(s1, s', i + 1, ms)
    requires forall e :: e in s1.v.q.part[ms] <==> e in s.v.q.part[ms]
    ensures Settled(s, s', i, ms)
  {
    LaterStep(s, s1, i, ms);
    TwoSteps(s, s1, s', ms, ms == Nth(s, i), Later(s1, i + 1, ms));
  }

  /** One queue seen over a first step and the steps after it: it fires in at most one of them. */
  lemma TwoSteps(s: State, s1: State, s': State, ms: int, first: bool, later: bool)
    requires Sane(s, s1, ms) && Sane(s1, s', ms) && s1.now == s.now && !(first && later)
    requires if first then FiredAt(s, s1, ms) else SameAt(s, s1, ms)
    requires if later then FiredAt(s1, s', ms) else SameAt(s1, s', ms)
    requires forall e :: e in s1.v.q.part[ms] <==> e in s.v.q.part[ms]
    ensures if first || later then FiredAt(s, s', ms) else SameAt(s, s', ms)
  {
    if first {
      FiredThenSame(s, s1, s', ms);
    } else if later {
      SameThenFired(s, s1, s', ms);
    } else {
      SameThenSame(s, s1, s', ms);
    }
  }

  /** The step of the loop at the `i`th queue, seen from queue `ms`. */
  lemma OneStep(s: State, i: nat, ms: int)
    requires Inv(s) && Ahead(s, i) && ms in s.v.q.part && i < |s.v.q.tqs|
    ensures Nth(s, i) in s.v.q.part && Fireable(s, Nth(s, i))
    ensures var s1 := FireState(s, Nth(s, i));
            && Sane(s, s1, ms)
            && (ms == Nth(s, i) ==> FiredAt(s, s1, ms))
            && (ms != Nth(s, i) ==> SameAt(s, s1, ms))
            && ms in s1.v.q.part && forall e :: e in s1.v.q.part[ms] <==> e in s.v.q.part[ms]
  {
    assert Nth(s, i) in s.v.q.part && Calm(s, Nth(s, i));
    if ms == Nth(s, i) {
      FireOneQueue(s, ms);
      RotateSame(s, ms);
    } else {
      OtherQueue(s, Nth(s, i), ms);
    }
  }

  lemma LaterStep(s: State, s1: State, i: nat, ms: int)
    requires Inv(s) && Within(s.v.q.tqs, |s.mem.w4|) && i < |s.v.q.tqs| && SameFrame(s, s1)
    ensures Later(s, i, ms) <==> Later(s1, i + 1, ms) || Nth(s, i) == ms
    ensures Nth(s, i) == ms ==> !Later(s1, i + 1, ms)
  {
    if Nth(s, i) == ms {
      forall j | i + 1 <= j < |s1.v.q.tqs|
        ensures Nth(s1, j) != ms
      {
        NthDistinct(s, i, j);
      }
    } else {
      if Later(s, i, ms) {
        var j :| i <= j < |s.v.q.tqs| && Nth(s, j) == ms;
        assert Nth(s1, j) == ms;
      }
      if Later(s1, i + 1, ms) {
        var j :| i + 1 <= j < |s1.v.q.tqs| && Nth(s1, j) == ms;
        assert Nth(s, j) == ms;
      }
    }
  }

  lemma RotateSame(s: State, ms: int)
    requires Inv(s) && ms in s.v.q.part && Fireable(s, ms)
    ensures forall e :: e in Fired(s.mem, s.v.q.part[ms], s.now) <==> e in s.v.q.part[ms]
  {
    assert Holds(Contents, s);
    assert OneOk(s.mem, s.v.q, ms, s.now);
    RotateMembers(s.v.q.part[ms], Ripe(s.mem.due, s.v.q.part[ms], s.now + MIN_TIMEOUT));
  }

  // ---------------------------------------------------------------- timeout_process as a whole

  /** timeout_process, no event of a queue being ready already. */
  ghost function Process(s: State): (r: State)
    requires Inv(s) && AllCalm(s)
    ensures Inv(r) && SameFrame(s, r)
  {
    AllAhead(s);
    ProcessFrom(s, 0)
  }

  lemma AllAhead(s: State)
    requires Inv(s) && AllCalm(s)
    ensures Ahead(s, 0)
  {
    assert Holds(QueueList, s) && Holds(Contents, s) && Holds(Sizes, s);
    forall j | 0 <= j < |s.v.q.tqs|
      ensures Nth(s, j) in s.v.q.part && Calm(s, Nth(s, j))
    {
      assert s.v.q.tqs[j] in s.v.q.tqs;
      assert forall e :: e in s.v.q.part[Nth(s, j)] ==> InPart(s, e);
    }
  }

  /**
   To the ready list come exactly the events of all queues due before now + MIN_TIMEOUT; each of them is
   due a full timeout from now, the others keep their times, and every queue is rotated by its prefix.
   */
  lemma ProcessFires(s: State)
    requires Inv(s) && AllCalm(s)
    ensures forall e: nat :: e in Process(s).v.ready <==> e in s.v.ready || Expired(s, e)
    ensures Distinct(Process(s).v.ready)
    ensures forall ms :: ms in s.v.q.part ==> Sane(s, Process(s), ms) && FiredAt(s, Process(s), ms)
  {
    AllAhead(s);
    forall ms | ms in s.v.q.part
      ensures Sane(s, Process(s), ms) && FiredAt(s, Process(s), ms)
    {
      ProcessEach(s, 0, ms);
      assert Settled(s, Process(s), 0, ms);
      assert Holds(QueueList, s) && Holds(Contents, s);
      var j := IndexOf(s.v.q.tqs, s.v.q.idx[ms]);
      assert Nth(s, j) == ms;
    }
    ProcessFromMarks(s, 0);
    forall e: nat
      ensures e in Process(s).v.ready <==> e in s.v.ready || Expired(s, e)
    {
      assert Pending(s, e) || !Pending(s, e);
    }
    assert Holds(Chains, Process(s));
  }

  /** The flags of an event once it has fired. */
  function Timed(fl: Flags): Flags { fl.(active := true, timeoutRes := true) }

  /** The flags after some more events have fired: those now ready, and no others, are marked. */
  ghost predicate Marks(s: State, r: State) {
    exists n: nat :: n == |s.flags| && MarksUpTo(s, r, n)
  }

  ghost predicate MarksUpTo(s: State, r: State, n: nat) {
    && |r.flags| == |s.flags| == n
    && (forall e: nat {:trigger r.flags[e]} :: e < n ==>
          r.flags[e] == s.flags[e] || (e in r.v.ready && r.flags[e] == Timed(s.flags[e])))
    && (forall e: nat {:trigger e in r.v.ready} :: e in r.v.ready && e < n ==>
          e in s.v.ready || r.flags[e] == Timed(s.flags[e]))
    && (forall e: nat {:trigger e in s.v.ready} :: e in s.v.ready ==> e in r.v.ready && (e < n ==> r.flags[e] == s.flags[e]))
  }

  lemma FireMarks(s: State, ms: int)
    requires Fireable(s, ms) && Calm(s, ms)
    ensures Marks(s, FireState(s, ms))
  {
    FiredEvents(s, ms);
    FireStateWords(s, ms);
    MarkedAt(s.flags, RipeOf(s, ms));
    assert MarksUpTo(s, FireState(s, ms), |s.flags|);
  }

  lemma MarksOn(s: State, s1: State, r: State)
    requires Marks(s, s1) && Marks(s1, r)
    ensures Marks(s, r)
  {
    forall e: nat | e < |s.flags|
      ensures r.flags[e] == s.flags[e] || (e in r.v.ready && r.flags[e] == Timed(s.flags[e]))
    {
      assert s1.flags[e] == s.flags[e] || (e in s1.v.ready && s1.flags[e] == Timed(s.flags[e]));
      assert r.flags[e] == s1.flags[e] || (e in r.v.ready && r.flags[e] == Timed(s1.flags[e]));
    }
    forall e: nat | e in r.v.ready && e < |s.flags|
      ensures e in s.v.ready || r.flags[e] == Timed(s.flags[e])
    {
      assert s1.flags[e] == s.flags[e] || (e in s1.v.ready && s1.flags[e] == Timed(s.flags[e]));
      assert r.flags[e] == s1.flags[e] || (e in r.v.ready && r.flags[e] == Timed(s1.flags[e]));
    }
    assert MarksUpTo(s, r, |s.flags|);
  }

  lemma {:induction false} ProcessFromMarks(s: State, i: nat)
    requires Inv(s) && Ahead(s, i)
    ensures Marks(s, ProcessFrom(s, i))
    decreases |s.v.q.tqs| - i
  {
    if i == |s.v.q.tqs| {
      assert MarksUpTo(s, s, |s.flags|);
    } else {
      AheadOnce(s, i);
      var s1 := FireState(s, Nth(s, i));
      FireMarks(s, Nth(s, i));
      ProcessFromMarks(s1, i + 1);
      MarksOn(s, s1, ProcessFrom(s1, i + 1));
    }
  }

  /** Exactly the events that fire are marked as timed out. */
  lemma ProcessMarks(s: State)
    requires Inv(s) && AllCalm(s)
    ensures |Process(s).flags| == |s.flags|
    ensures forall e: nat {:trigger Process(s).flags[e]} :: e < |s.flags| ==>
              Process(s).flags[e] == if Expired(s, e) then Timed(s.flags[e]) else s.flags[e]
  {
    AllAhead(s);
    ProcessFromMarks(s, 0);
    ProcessFires(s);
    forall e: nat | e < |s.flags|
      ensures Process(s).flags[e] == if Expired(s, e) then Timed(s.flags[e]) else s.flags[e]
    {
      assert Process(s).flags[e] == s.flags[e] || (e in Process(s).v.ready && Process(s).flags[e] == Timed(s.flags[e]));
      if Expired(s, e) { assert InPart(s, e); }
    }
  }

  // ---------------------------------------------------------------- the clock

  /** Time may pass: times stay within a full timeout from now because the clock does not go back. */
  lemma TimePasses(s: State, now: int)
    requires Inv(s) && s.now <= now
    ensures Inv(s.(now := now))
  {
    var s' := s.(now := now);
    forall c
      ensures Holds(c, s')
    {
      assert Holds(c, s) && Holds(QueueList, s) && Holds(Contents, s);
      match c {
        case Contents => ClockMoves(s.mem, s.tqHead, s.v.q, s.now, now);
        case Sizes =>
        case Chains =>
        case QueueList =>
        case Slots =>
        case Lookup =>
      }
    }
  }

  // ---------------------------------------------------------------- timeout_get

  const MAX_TIMEOUT := 0x7FFF_FFFF

  function Min(a: int, b: int): int { if a < b then a else b }

  /** The least of `least` and the times at the heads of the queues from the `i`th on. */
  function MinHead(m: Mem, tqs: seq<nat>, i: nat, least: int): int
    requires i <= |tqs| && m.Sized(|m.w0|) && Within(tqs, |m.w0|)
    requires forall q :: q in tqs ==> 0 <= m.w2[q] < |m.w0|
    decreases |tqs| - i
  {
    if i == |tqs| then least else MinHead(m, tqs, i + 1, Min(least, m.due[m.w2[tqs[i]]]))
  }

  function Clamp(d: int): int {
    if d < 0 then 0 else if d > MAX_TIMEOUT then MAX_TIMEOUT else d
  }

  lemma HeadsAreEvents(s: State)
    requires Inv(s)
    ensures s.mem.Sized(|s.mem.w0|) && Within(s.v.q.tqs, |s.mem.w0|)
    ensures forall q :: q in s.v.q.tqs ==> 0 <= s.mem.w2[q] < |s.mem.w0|
  {
    assert Holds(Sizes, s) && Holds(QueueList, s) && Holds(Contents, s);
    forall q | q in s.v.q.tqs
      ensures 0 <= s.mem.w2[q] < |s.mem.w0|
    {
      assert OneOk(s.mem, s.v.q, s.mem.w4[q], s.now);
    }
  }

  /** timeout_get for a queue list that is not empty. */
  ghost function WaitTime(s: State, limit: int): int
    requires Inv(s) && s.v.q.tqs != []
  {
    HeadsAreEvents(s);
    var first := if limit == TIMEOUT_INFINITE then s.mem.due[s.mem.w2[s.v.q.tqs[0]]] else limit + s.now;
    Clamp(MinHead(s.mem, s.v.q.tqs, 0, first) - s.now)
  }

  /** No event of any queue is due before `t`. */
  ghost predicate NoneBefore(s: State, t: int) {
    forall ms, e :: ms in s.v.q.part && e in s.v.q.part[ms] && e < |s.mem.due| ==> t <= s.mem.due[e]
  }

  /** Some event of some queue is due at `t`. */
  ghost predicate SomeAt(s: State, t: int) {
    exists ms, e :: ms in s.v.q.part && e in s.v.q.part[ms] && e < |s.mem.due| && s.mem.due[e] == t
  }

  /** The head of a queue is its earliest event. */
  lemma HeadFirst(s: State, q: nat)
    requires Inv(s) && q in s.v.q.tqs && q < |s.mem.w4| && q < |s.mem.w2|
    ensures 0 <= s.mem.w2[q] < |s.mem.due| && SomeAt(s, s.mem.due[s.mem.w2[q]])
    ensures s.mem.w4[q] in s.v.q.part && Within(s.v.q.part[s.mem.w4[q]], |s.mem.due|)
    ensures forall e :: e in s.v.q.part[s.mem.w4[q]] ==> s.mem.due[s.mem.w2[q]] <= s.mem.due[e]
  {
    assert Holds(Sizes, s) && Holds(QueueList, s) && Holds(Contents, s);
    var ms := s.mem.w4[q];
    assert OneOk(s.mem, s.v.q, ms, s.now);
    var es := s.v.q.part[ms];
    assert es[0] in es;
    forall e | e in es
      ensures s.mem.due[es[0]] <= s.mem.due[e]
    {
      assert es[IndexOf(es, e)] == e;
    }
  }

  lemma {:induction false} MinHeadBounds(s: State, i: nat, least: int)
    requires Inv(s) && i <= |s.v.q.tqs|
    requires s.mem.Sized(|s.mem.w0|) && Within(s.v.q.tqs, |s.mem.w0|)
    requires forall q :: q in s.v.q.tqs ==> 0 <= s.mem.w2[q] < |s.mem.w0|
    ensures MinHead(s.mem, s.v.q.tqs, i, least) <= least
    ensures forall j :: i <= j < |s.v.q.tqs| ==> MinHead(s.mem, s.v.q.tqs, i, least) <= s.mem.due[s.mem.w2[s.v.q.tqs[j]]]
    ensures MinHead(s.mem, s.v.q.tqs, i, least) == least || SomeAt(s, MinHead(s.mem, s.v.q.tqs, i, least))
    decreases |s.v.q.tqs| - i
  {
    if i < |s.v.q.tqs| {
      var q := s.v.q.tqs[i];
      assert q in s.v.q.tqs;
      HeadFirst(s, q);
      MinHeadBounds(s, i + 1, Min(least, s.mem.due[s.mem.w2[q]]));
    }
  }

  /** The earliest time of all events of all queues. */
  ghost predicate Earliest(s: State, t: int) { NoneBefore(s, t) && SomeAt(s, t) }

  /**
   Looking at queue heads only, timeout_get returns the clamped distance to the earliest event of all
   queues, or to the limit if that is nearer.
   */
  lemma WaitTimeIsEarliest(s: State, limit: int) returns (t: int)
    requires Inv(s) && s.v.q.tqs != []
    ensures Earliest(s, t)
    ensures WaitTime(s, limit) == Clamp(if limit == TIMEOUT_INFINITE then t - s.now else Min(limit, t - s.now))
  {
    HeadsAreEvents(s);
    var head := s.mem.due[s.mem.w2[s.v.q.tqs[0]]];
    assert s.v.q.tqs[0] in s.v.q.tqs;
    HeadFirst(s, s.v.q.tqs[0]);
    MinHeadBounds(s, 0, head);
    t := MinHead(s.mem, s.v.q.tqs, 0, head);
    HeadsCover(s, t);
    if limit != TIMEOUT_INFINITE {
      MinHeadMin(s.mem, s.v.q.tqs, 1, head, limit + s.now);
    }
  }

  lemma HeadsCover(s: State, t: int)
    requires Inv(s) && s.mem.Sized(|s.mem.w0|) && Within(s.v.q.tqs, |s.mem.w0|)
    requires forall q :: q in s.v.q.tqs ==> 0 <= s.mem.w2[q] < |s.mem.w0|
    requires forall j :: 0 <= j < |s.v.q.tqs| ==> t <= s.mem.due[s.mem.w2[s.v.q.tqs[j]]]
    ensures NoneBefore(s, t)
  {
    assert Holds(QueueList, s) && Holds(Contents, s);
    forall ms, e | ms in s.v.q.part && e in s.v.q.part[ms] && e < |s.mem.due|
      ensures t <= s.mem.due[e]
    {
      var q := s.v.q.idx[ms];
      HeadFirst(s, q);
      assert s.v.q.tqs[IndexOf(s.v.q.tqs, q)] == q;
    }
  }

  lemma {:induction false} MinHeadMin(m: Mem, tqs: seq<nat>, i: nat, a: int, b: int)
    requires i <= |tqs| && m.Sized(|m.w0|) && Within(tqs, |m.w0|)
    requires forall q :: q in tqs ==> 0 <= m.w2[q] < |m.w0|
    ensures MinHead(m, tqs, i, Min(a, b)) == Min(MinHead(m, tqs, i, a), b)
    decreases |tqs| - i
  {
    if i < |tqs| {
      var h := m.due[m.w2[tqs[i]]];
      assert Min(Min(a, b), h) == Min(Min(a, h), b);
      MinHeadMin(m, tqs, i + 1, Min(a, h), b);
    }
  }

  /** Waiting as long as timeout_get says, a timer being the reason, makes the next process fire. */
  lemma WaitingSuffices(s: State, limit: int, now: int)
    requires Inv(s) && s.v.q.tqs != [] && AllCalm(s)
    requires WaitTime(s, limit) < MAX_TIMEOUT && now >= s.now + WaitTime(s, limit)
    requires limit == TIMEOUT_INFINITE || exists t :: Earliest(s, t) && t <= s.now + limit
    ensures Inv(s.(now := now)) && AllCalm(s.(now := now))
    ensures exists e: nat :: e in Process(s.(now := now)).v.ready && e !in s.v.ready
  {
    var t := WaitTimeIsEarliest(s, limit);
    if limit != TIMEOUT_INFINITE {
      var u :| Earliest(s, u) && u <= s.now + limit;
      EarliestUnique(s, t, u);
    }
    TimePasses(s, now);
    var s' := s.(now := now);
    forall e: nat | InPart(s', e)
      ensures e !in s'.v.ready
    {
      assert InPart(s, e);
    }
    ProcessFires(s');
    var ms, e :| ms in s.v.q.part && e in s.v.q.part[ms] && e < |s.mem.due| && s.mem.due[e] == t;
    assert Expired(s', e) && InPart(s, e);
    assert e in Process(s').v.ready && e !in s.v.ready;
  }

  lemma EarliestUnique(s: State, t: int, u: int)
    requires Earliest(s, t) && Earliest(s, u)
    ensures t == u
  {
    var ms, e :| ms in s.v.q.part && e in s.v.q.part[ms] && e < |s.mem.due| && s.mem.due[e] == t;
    var ms', e' :| ms' in s.v.q.part && e' in s.v.q.part[ms'] && e' < |s.mem.due| && s.mem.due[e'] == u;
  }
}
