/**
 The state of one event queue and its invariant, clause by clause; what each timeout operation of
 src/event/timeout.c does to it.
 */
module EventState {
  import opened Lists
  import opened TimeoutLists
  import opened TimeoutState
  import opened EventSlots

  const TIMEOUT_INFINITE := -1

  /** struct event_queue with its slots; `v` is what the words amount to. */
  datatype State = State(
    mem: Mem, flags: seq<Flags>, attached: seq<bool>, evId: seq<int>,
    evFree: int, evReady: int, tqHead: int, syncOp: int, tqMap: map<int, nat>, useMap: bool,
    now: int, nevents: int, nbufs: nat, bufIndex: nat, bufNevents: nat, v: View)

  /** The invariant's clauses by name. */
  datatype Clause = Sizes | Chains | QueueList | Contents | Slots | Lookup

  ghost predicate Holds(c: Clause, s: State) {
    match c
    case Sizes => s.mem.Sized(|s.v.role|) && |s.flags| == |s.attached| == |s.evId| == |s.v.role|
    case Chains => ChainsOk(s.mem.w0, s.evFree, s.syncOp, s.evReady, s.v)
    case QueueList => ListOk(s.mem, s.tqHead, s.v.q)
    case Contents => QueuesOk(s.mem, s.v.q, s.now)
    case Slots => SlotsOk(s.v, s.mem.w4, s.flags, s.attached, s.evId)
    case Lookup => Within(s.v.q.tqs, |s.mem.w4|) && LookupOk(s.useMap, s.tqMap, s.mem.w4, s.v.q)
  }

  /** Every clause holds: what each operation keeps. */
  ghost predicate Inv(s: State) {
    forall c {:trigger Holds(c, s)} :: Holds(c, s)
  }

  lemma Facts(s: State)
    requires Inv(s)
    ensures s.mem.Sized(|s.v.role|) && |s.flags| == |s.attached| == |s.evId| == |s.v.role|
    ensures Timeouts(s.mem, s.tqHead, s.v.q, s.now)
    ensures ChainsOk(s.mem.w0, s.evFree, s.syncOp, s.evReady, s.v)
    ensures SlotsOk(s.v, s.mem.w4, s.flags, s.attached, s.evId)
    ensures LookupOk(s.useMap, s.tqMap, s.mem.w4, s.v.q)
  {
    assert Holds(Sizes, s) && Holds(Chains, s) && Holds(QueueList, s) && Holds(Contents, s) && Holds(Slots, s)
        && Holds(Lookup, s);
  }

  lemma Establish(s: State)
    requires s.mem.Sized(|s.v.role|) && Timeouts(s.mem, s.tqHead, s.v.q, s.now)
    requires ChainsOk(s.mem.w0, s.evFree, s.syncOp, s.evReady, s.v)
    requires SlotsOk(s.v, s.mem.w4, s.flags, s.attached, s.evId)
    requires LookupOk(s.useMap, s.tqMap, s.mem.w4, s.v.q)
    ensures Inv(s)
  {
    forall c
      ensures Holds(c, s)
    {
      match c {
        case Sizes =>
        case Chains =>
        case QueueList =>
        case Contents =>
        case Slots =>
        case Lookup =>
      }
    }
  }

  ghost predicate IsEvent(s: State, e: nat) { e < |s.v.role| && s.v.role[e] == Event }

  /** The timeout of the queue an event is in. */
  function TimeoutOf(m: Mem, e: nat): int {
    if e < |m.w4| && 0 <= m.w4[e] < |m.w4| then m.w4[m.w4[e]] else NULL
  }

  /** An event in a queue: where it stands, and that its links are pointers. */
  lemma Queued(s: State, e: nat) returns (ms: int, k: nat)
    requires Inv(s) && IsEvent(s, e) && s.mem.Sized(|s.v.role|) && s.mem.w4[e] != NULL
    ensures ms == TimeoutOf(s.mem, e) && ms in s.v.q.part && ms in s.v.q.idx && OneOk(s.mem, s.v.q, ms, s.now)
    ensures k < |s.v.q.part[ms]| && s.v.q.part[ms][k] == e && k == IndexOf(s.v.q.part[ms], e)
    ensures s.mem.w4[e] == s.v.q.idx[ms] && s.v.q.idx[ms] < |s.v.role| && s.mem.w4[s.v.q.idx[ms]] == ms
    ensures s.mem.w2[e] == At(s.v.q.part[ms], k - 1) && s.mem.w3[e] == At(s.v.q.part[ms], k + 1)
    ensures NULL <= s.mem.w2[e] < |s.v.role| && NULL <= s.mem.w3[e] < |s.v.role|
    ensures Distinct(s.v.q.part[ms]) && e < |s.attached| && s.attached[e]
    ensures forall m :: m in s.v.q.part && m != ms ==> e !in s.v.q.part[m]
  {
    Facts(s);
    assert SlotOk(e, s.v, s.mem.w4, s.flags, s.attached, s.evId);
    ms := TimeoutOf(s.mem, e);
    assert OneOk(s.mem, s.v.q, ms, s.now);
    var es := s.v.q.part[ms];
    k := IndexOf(es, e);
    assert es[k] == e;
    assert s.mem.w2[es[k]] == At(es, k - 1) && s.mem.w3[es[k]] == At(es, k + 1);
    OnlyQueue(s.mem, s.tqHead, s.v.q, s.now, ms, e);
  }

  // ---------------------------------------------------------------- timeout_del

  /** The last event of a queue leaves: its queue slot becomes free. */
  ghost function DropQueue(s: State, e: nat): State
    requires s.mem.Sized(|s.v.role|) && e < |s.v.role| && 0 <= s.mem.w4[e] < |s.v.role|
    requires var q := s.mem.w4[e];
             NULL <= s.mem.w0[q] < |s.v.role| && NULL <= s.mem.w1[q] < |s.v.role|
             && q in s.v.q.tqs && s.mem.w4[q] in s.v.q.idx && s.v.q.idx[s.mem.w4[q]] == q
  {
    var q: nat := s.mem.w4[e];
    var ms := s.mem.w4[q];
    var m1 := Unlist(s.mem, s.mem.w0[q], s.mem.w1[q]);
    s.(mem := m1.(w0 := m1.w0[q := s.evFree], w4 := s.mem.w4[e := NULL]),
       tqHead := if s.mem.w0[q] == NULL then s.mem.w1[q] else s.tqHead,
       evFree := q,
       tqMap := if s.useMap then s.tqMap - {ms} else s.tqMap,
       v := ViewDelLast(s.v, ms, IndexOf(s.v.q.tqs, q)))
  }

  ghost function LeaveQueue(s: State, e: nat): State
    requires s.mem.Sized(|s.v.role|) && e < |s.v.role| && 0 <= s.mem.w4[e] < |s.v.role|
    requires NULL <= s.mem.w2[e] < |s.v.role| && NULL <= s.mem.w3[e] < |s.v.role|
    requires TimeoutOf(s.mem, e) in s.v.q.part && e in s.v.q.part[TimeoutOf(s.mem, e)]
  {
    s.(mem := Unhook(s.mem, s.mem.w4[e], s.mem.w2[e], s.mem.w3[e]).(w4 := s.mem.w4[e := NULL]),
       v := s.v.(q := s.v.q.(part := PartDel(s.v.q.part, TimeoutOf(s.mem, e), e))))
  }

  lemma DropQueueKeeps(s: State, e: nat)
    requires Inv(s) && IsEvent(s, e) && s.mem.Sized(|s.v.role|) && s.mem.w4[e] != NULL
    requires s.mem.w2[e] == NULL && s.mem.w3[e] == NULL
    ensures var q := s.mem.w4[e];
            0 <= q < |s.v.role| && NULL <= s.mem.w0[q] < |s.v.role| && NULL <= s.mem.w1[q] < |s.v.role|
            && q in s.v.q.tqs && s.mem.w4[q] in s.v.q.idx && s.v.q.idx[s.mem.w4[q]] == q
    ensures Inv(DropQueue(s, e))
    ensures TimeoutOf(s.mem, e) in s.v.q.part && s.v.q.part[TimeoutOf(s.mem, e)] == [e]
  {
    var ms, k := Queued(s, e);
    Facts(s);
    assert s.v.q.part[ms] == [e];
    var q := s.v.q.idx[ms];
    var j := IndexOf(s.v.q.tqs, q);
    DelLast(s.mem, s.tqHead, s.v.q, s.now, ms, j, s.evFree);
    SlotsDelLast(s.v, s.mem.w4, s.flags, s.attached, s.evId, ms, e, j);
    UnlistedChains(s, j);
    UnlistedLookup(s, ms, e, j);
    AtIsPointer(s.v.q.tqs, j as int - 1);
    AtIsPointer(s.v.q.tqs, j + 1);
    Establish(DropQueue(s, e));
  }

  /** Freeing a queue slot keeps the chains. */
  lemma UnlistedChains(s: State, k: nat)
    requires s.mem.Sized(|s.v.role|) && ChainsOk(s.mem.w0, s.evFree, s.syncOp, s.evReady, s.v)
    requires SlotsOk(s.v, s.mem.w4, s.flags, s.attached, s.evId)
    requires ListOk(s.mem, s.tqHead, s.v.q) && k < |s.v.q.tqs|
    ensures var q := s.v.q.tqs[k];
            && q < |s.v.role| && s.mem.w0[q] == At(s.v.q.tqs, k - 1) && s.mem.w1[q] == At(s.v.q.tqs, k + 1)
            && ChainsOk(Unlist(s.mem, s.mem.w0[q], s.mem.w1[q]).w0[q := s.evFree], q, s.syncOp, s.evReady,
                        s.v.(free := [q] + s.v.free))
  {
    var q, p, n := s.v.q.tqs[k], At(s.v.q.tqs, k - 1), At(s.v.q.tqs, k + 1);
    assert s.mem.w0[q] == p && s.mem.w1[q] == n;
    assert SlotOk(q, s.v, s.mem.w4, s.flags, s.attached, s.evId);
    if n >= 0 {
      assert n in s.v.q.tqs;
      assert SlotOk(n, s.v, s.mem.w4, s.flags, s.attached, s.evId);
    }
    ChainsUnlink(s.mem.w0, s.evFree, s.syncOp, s.evReady, s.v, n, p);
    PushFree(Unlink(s.mem.w0, n, p), s.evFree, s.syncOp, s.evReady, s.v, q);
  }

  lemma UnlistedLookup(s: State, ms: int, e: nat, k: nat)
    requires Within(s.v.q.tqs, |s.mem.w4|) && LookupOk(s.useMap, s.tqMap, s.mem.w4, s.v.q) && k < |s.v.q.tqs|
    requires e < |s.mem.w4| && e !in s.v.q.tqs && Distinct(s.v.q.tqs)
    ensures var q' := Queues(Without(s.v.q.tqs, k), s.v.q.part - {ms}, s.v.q.idx - {ms});
            Within(q'.tqs, |s.mem.w4|)
            && LookupOk(s.useMap, if s.useMap then s.tqMap - {ms} else s.tqMap, s.mem.w4[e := NULL], q')
  {
    var t := Without(s.v.q.tqs, k);
    WithoutMembers(s.v.q.tqs, k);
    forall i | 0 <= i < |t|
      ensures t[i] == s.v.q.tqs[if i < k then i else i + 1]
    {
      WithoutAt(s.v.q.tqs, k, i);
    }
  }

  lemma LeaveQueueKeeps(s: State, e: nat)
    requires Inv(s) && IsEvent(s, e) && s.mem.Sized(|s.v.role|) && s.mem.w4[e] != NULL
    requires s.mem.w2[e] != NULL || s.mem.w3[e] != NULL
    ensures 0 <= s.mem.w4[e] < |s.v.role|
    ensures NULL <= s.mem.w2[e] < |s.v.role| && NULL <= s.mem.w3[e] < |s.v.role|
    ensures TimeoutOf(s.mem, e) in s.v.q.part && e in s.v.q.part[TimeoutOf(s.mem, e)]
    ensures |s.v.q.part[TimeoutOf(s.mem, e)]| > 1
    ensures Inv(LeaveQueue(s, e))
  {
    var ms, k := Queued(s, e);
    assert Holds(QueueList, s) && Holds(Contents, s);
    OnlyQueue(s.mem, s.tqHead, s.v.q, s.now, ms, e);
    LeftQueues(s, e, ms, k);
    LeftSlots(s, e, ms);
    var s' := LeaveQueue(s, e);
    forall c
      ensures Holds(c, s')
    {
      assert Holds(c, s);
      match c {
        case Sizes =>
        case Chains =>
        case QueueList =>
        case Contents =>
        case Slots =>
        case Lookup =>
      }
    }
  }

  ghost predicate Leaves(s: State, e: nat, ms: int, k: nat) {
    && s.mem.Sized(|s.v.role|) && e < |s.v.role| && ms == TimeoutOf(s.mem, e) && ms in s.v.q.part && ms in s.v.q.idx
    && k < |s.v.q.part[ms]| && s.v.q.part[ms][k] == e && |s.v.q.part[ms]| > 1 && s.mem.w4[e] == s.v.q.idx[ms] < |s.v.role|
    && NULL <= s.mem.w2[e] < |s.v.role| && NULL <= s.mem.w3[e] < |s.v.role|
  }

  lemma LeftQueues(s: State, e: nat, ms: int, k: nat)
    requires Leaves(s, e, ms, k) && Timeouts(s.mem, s.tqHead, s.v.q, s.now) && OneOk(s.mem, s.v.q, ms, s.now)
    ensures Holds(QueueList, LeaveQueue(s, e)) && Holds(Contents, LeaveQueue(s, e))
  {
    DelMany(s.mem, s.tqHead, s.v.q, s.now, ms, k);
  }

  lemma LeftSlots(s: State, e: nat, ms: int)
    requires Inv(s) && s.mem.Sized(|s.v.role|) && e < |s.v.role| && ms == TimeoutOf(s.mem, e)
    requires ms in s.v.q.part && e in s.v.q.part[ms] && Distinct(s.v.q.part[ms]) && |s.v.q.part[ms]| > 1
    requires 0 <= s.mem.w4[e] < |s.v.role| && NULL <= s.mem.w2[e] < |s.v.role| && NULL <= s.mem.w3[e] < |s.v.role|
    requires forall m :: m in s.v.q.part && m != ms ==> e !in s.v.q.part[m]
    ensures Holds(Slots, LeaveQueue(s, e)) && Holds(Lookup, LeaveQueue(s, e))
  {
    assert Holds(Slots, s) && Holds(Lookup, s) && Holds(QueueList, s);
    SlotsDelMany(s.v, s.mem.w4, s.flags, s.attached, s.evId, ms, e);
    OnlyEvent(s, e);
  }

  /** An event's slot is no queue. */
  lemma OnlyEvent(s: State, e: nat)
    requires Inv(s) && (exists ms :: ms in s.v.q.part && e in s.v.q.part[ms])
    ensures e !in s.v.q.tqs
  {
    assert Holds(Contents, s);
    var ms :| ms in s.v.q.part && e in s.v.q.part[ms];
    assert OneOk(s.mem, s.v.q, ms, s.now);
  }

  // ---------------------------------------------------------------- timeout_add

  /** How many queues the scan of the sorted list passes. */
  function Below(w4: seq<int>, tqs: seq<nat>, ms: int): (k: nat)
    requires Within(tqs, |w4|)
    ensures k <= |tqs|
    ensures forall i :: 0 <= i < k ==> w4[tqs[i]] < ms
    ensures k < |tqs| ==> w4[tqs[k]] >= ms
  {
    if tqs == [] || w4[tqs[0]] >= ms then 0 else 1 + Below(w4, tqs[1..], ms)
  }

  /** Where a queue for `ms` stands or would be put. */
  function Place(s: State, ms: int): (k: nat)
    requires Within(s.v.q.tqs, |s.mem.w4|)
    ensures k <= |s.v.q.tqs|
  {
    if s.useMap then 0 else Below(s.mem.w4, s.v.q.tqs, ms)
  }

  ghost function JoinQueue(s: State, e: nat, ms: int): State
    requires s.mem.Sized(|s.v.role|) && e < |s.v.role| && ms in s.v.q.idx && s.v.q.idx[ms] < |s.v.role|
    requires 0 <= s.mem.w3[s.v.q.idx[ms]] < |s.v.role|
  {
    s.(mem := Append(s.mem, s.v.q.idx[ms], e, s.now + ms), v := s.v.(q := s.v.q.(part := PartAdd(s.v.q.part, ms, e))))
  }

  /** The head of the free list becomes the queue of a new timeout. */
  ghost function OpenQueue(s: State, e: nat, ms: int): State
    requires s.mem.Sized(|s.v.role|) && e < |s.v.role| && Within(s.v.q.tqs, |s.mem.w4|)
    requires s.v.free != [] && s.v.free[0] < |s.v.role|
  {
    var q, k := s.v.free[0], Place(s, ms);
    s.(mem := NewQueue(s.mem, q, At(s.v.q.tqs, k - 1), At(s.v.q.tqs, k), ms, e, s.now + ms),
       evFree := s.mem.w0[q],
       tqHead := if k == 0 then q else s.tqHead,
       tqMap := if s.useMap then s.tqMap[ms := q] else s.tqMap,
       v := ViewAddNew(s.v, ms, k, e))
  }

  /** An event in no queue. */
  lemma NotQueued(s: State, e: nat)
    requires Inv(s) && IsEvent(s, e) && s.mem.Sized(|s.v.role|) && s.mem.w4[e] == NULL
    ensures Unqueued(s.v.q, e)
  {
    Facts(s);
    assert SlotOk(e, s.v, s.mem.w4, s.flags, s.attached, s.evId);
    forall ms | ms in s.v.q.part
      ensures e !in s.v.q.part[ms]
    {
      assert OneOk(s.mem, s.v.q, ms, s.now);
    }
  }

  lemma JoinQueueKeeps(s: State, e: nat, ms: int)
    requires Inv(s) && IsEvent(s, e) && s.mem.Sized(|s.v.role|) && s.mem.w4[e] == NULL
    requires e < |s.attached| && s.attached[e] && ms in s.v.q.part
    ensures ms in s.v.q.idx && s.v.q.idx[ms] < |s.v.role| && s.v.q.idx[ms] in s.v.q.tqs
    ensures 0 <= s.mem.w3[s.v.q.idx[ms]] < |s.v.role|
    ensures Inv(JoinQueue(s, e, ms))
  {
    Facts(s);
    NotQueued(s, e);
    AddExisting(s.mem, s.tqHead, s.v.q, s.now, ms, e);
    SlotsAddExisting(s.v, s.mem.w4, s.flags, s.attached, s.evId, ms, e);
    Establish(JoinQueue(s, e, ms));
  }

  lemma OpenQueueKeeps(s: State, e: nat, ms: int)
    requires Inv(s) && IsEvent(s, e) && s.mem.Sized(|s.v.role|) && s.mem.w4[e] == NULL
    requires e < |s.attached| && s.attached[e] && ms !in s.v.q.part && s.v.free != []
    ensures Within(s.v.q.tqs, |s.mem.w4|) && s.v.free[0] < |s.v.role| && s.evFree == s.v.free[0]
    ensures s.v.free[0] != e && s.v.free[0] !in s.v.q.tqs
    ensures Inv(OpenQueue(s, e, ms))
  {
    FreeHead(s, e);
    Facts(s);
    var q, k := s.v.free[0], Place(s, ms);
    SlotsAddNew(s.v, s.mem.w4, s.flags, s.attached, s.evId, ms, k, e);
    OpenedChains(s, k);
    OpenedLookup(s, ms, q, e);
    OpenedQueues(s, e, ms);
    var s' := OpenQueue(s, e, ms);
    assert Holds(QueueList, s') && Holds(Contents, s');
    assert s'.mem.w4 == s.mem.w4[q := ms][e := q];
    assert s'.v.q == Queues(Insert(s.v.q.tqs, k, q), PartAdd(s.v.q.part, ms, e), s.v.q.idx[ms := q]);
    Establish(s');
  }

  /** The head of the free list is in no list and is not the event. */
  lemma FreeHead(s: State, e: nat)
    requires Inv(s) && IsEvent(s, e) && s.v.free != []
    ensures s.v.free[0] < |s.v.role| && s.evFree == s.v.free[0] && s.v.free[0] !in s.v.free[1..]
    ensures s.v.free[0] != e && e !in s.v.q.tqs && Unqueued(s.v.q, s.v.free[0])
  {
    Facts(s);
    var q := s.v.free[0];
    assert q in s.v.free;
    ChainPop(s.mem.w0, s.evFree, s.v.free);
    assert SlotOk(q, s.v, s.mem.w4, s.flags, s.attached, s.evId);
    assert SlotOk(e, s.v, s.mem.w4, s.flags, s.attached, s.evId);
  }

  lemma OpenedQueues(s: State, e: nat, ms: int)
    requires Inv(s) && IsEvent(s, e) && s.mem.Sized(|s.v.role|) && s.mem.w4[e] == NULL
    requires ms !in s.v.q.part && s.v.free != [] && s.v.free[0] < |s.v.role| && Within(s.v.q.tqs, |s.mem.w4|)
    ensures Holds(QueueList, OpenQueue(s, e, ms)) && Holds(Contents, OpenQueue(s, e, ms))
  {
    FreeHead(s, e);
    NotQueued(s, e);
    assert Holds(QueueList, s) && Holds(Contents, s) && Holds(Sizes, s);
    var q: nat, k: int := s.v.free[0], Place(s, ms);
    OpenedHolds(OpenQueue(s, e, ms), s.mem, s.tqHead, s.v.q, ms, e, q, k);
  }

  /** The clauses on the queues speak of these fields only. */
  lemma OpenedHolds(s': State, m: Mem, head: int, g: Queues, ms: int, e: nat, q: nat, k: nat)
    requires Timeouts(m, head, g, s'.now) && ms !in g.part && k <= |g.tqs|
    requires e < |m.w0| && q < |m.w0| && e != q && Unqueued(g, e) && Unqueued(g, q)
    requires At(g.tqs, k - 1) < |m.w0| && At(g.tqs, k) < |m.w0|
    requires s'.mem == NewQueue(m, q, At(g.tqs, k - 1), At(g.tqs, k), ms, e, s'.now + ms)
    requires s'.tqHead == (if k == 0 then q else head)
    requires s'.v.q == Queues(Insert(g.tqs, k, q), PartAdd(g.part, ms, e), g.idx[ms := q])
    ensures Holds(QueueList, s') && Holds(Contents, s')
  {
    AddNew(m, head, g, s'.now, ms, e, q, k);
  }

  lemma OpenedChains(s: State, k: nat)
    requires s.mem.Sized(|s.v.role|) && ChainsOk(s.mem.w0, s.evFree, s.syncOp, s.evReady, s.v)
    requires SlotsOk(s.v, s.mem.w4, s.flags, s.attached, s.evId)
    requires ListOk(s.mem, s.tqHead, s.v.q) && k <= |s.v.q.tqs| && s.v.free != []
    ensures var q, p, n := s.v.free[0], At(s.v.q.tqs, k - 1), At(s.v.q.tqs, k);
            && q < |s.v.role| && n < |s.v.role|
            && ChainsOk(Unlink(s.mem.w0[q := p], n, q), s.mem.w0[q], s.syncOp, s.evReady, s.v.(free := s.v.free[1..]))
  {
    var q, p, n := s.v.free[0], At(s.v.q.tqs, k - 1), At(s.v.q.tqs, k);
    ChainPop(s.mem.w0, s.evFree, s.v.free);
    assert SlotOk(q, s.v, s.mem.w4, s.flags, s.attached, s.evId);
    var v' := s.v.(free := s.v.free[1..]);
    ChainsKeep(s.mem.w0, s.mem.w0[q], s.syncOp, s.evReady, v', q, p);
    if n >= 0 {
      assert n in s.v.q.tqs;
      assert SlotOk(n, s.v, s.mem.w4, s.flags, s.attached, s.evId);
    }
    ChainsUnlink(s.mem.w0[q := p], s.mem.w0[q], s.syncOp, s.evReady, v', n, q);
  }

  lemma OpenedLookup(s: State, ms: int, q: nat, e: nat)
    requires s.mem.Sized(|s.v.role|) && ListOk(s.mem, s.tqHead, s.v.q) && ms !in s.v.q.idx
    requires LookupOk(s.useMap, s.tqMap, s.mem.w4, s.v.q)
    requires q < |s.v.role| && e < |s.v.role| && q !in s.v.q.tqs && e !in s.v.q.tqs && e != q
    ensures var k := Place(s, ms);
            var q' := Queues(Insert(s.v.q.tqs, k, q), PartAdd(s.v.q.part, ms, e), s.v.q.idx[ms := q]);
            && Within(q'.tqs, |s.mem.w4|)
            && LookupOk(s.useMap, if s.useMap then s.tqMap[ms := q] else s.tqMap, s.mem.w4[q := ms][e := q], q')
  {
    forall i | 0 <= i < |s.v.q.tqs|
      ensures s.mem.w4[s.v.q.tqs[i]] != ms
    {
      assert s.v.q.tqs[i] in s.v.q.tqs;
    }
    InsertMembers(s.v.q.tqs, Place(s, ms), q);
    if !s.useMap {
      InsertSorted(s.mem.w4, s.v.q.tqs, ms, q, e);
    }
  }

  /** The scan finds the place that keeps the queue list sorted. */
  lemma InsertSorted(w4: seq<int>, tqs: seq<nat>, ms: int, q: nat, e: nat)
    requires Within(tqs, |w4|) && q < |w4| && e < |w4| && q !in tqs && e !in tqs && e != q
    requires forall i, j :: 0 <= i < j < |tqs| ==> w4[tqs[i]] < w4[tqs[j]]
    requires forall i :: 0 <= i < |tqs| ==> w4[tqs[i]] != ms
    ensures var t, w4' := Insert(tqs, Below(w4, tqs, ms), q), w4[q := ms][e := q];
            && Within(t, |w4'|)
            && forall i, j :: 0 <= i < j < |t| ==> w4'[t[i]] < w4'[t[j]]
  {
    var t, w4' := Insert(tqs, Below(w4, tqs, ms), q), w4[q := ms][e := q];
    forall i | 0 <= i < |t|
      ensures t[i] < |w4'|
    {
      InsertedAt(w4, tqs, ms, q, e, i);
    }
    forall i, j | 0 <= i < j < |t|
      ensures w4'[t[i]] < w4'[t[j]]
    {
      InsertedAt(w4, tqs, ms, q, e, i);
      InsertedAt(w4, tqs, ms, q, e, j);
    }
  }

  lemma InsertedAt(w4: seq<int>, tqs: seq<nat>, ms: int, q: nat, e: nat, i: nat)
    requires Within(tqs, |w4|) && q < |w4| && e < |w4| && q !in tqs && e !in tqs && e != q && i <= |tqs|
    requires forall i, j :: 0 <= i < j < |tqs| ==> w4[tqs[i]] < w4[tqs[j]]
    requires forall i :: 0 <= i < |tqs| ==> w4[tqs[i]] != ms
    ensures var k, t, w4' := Below(w4, tqs, ms), Insert(tqs, Below(w4, tqs, ms), q), w4[q := ms][e := q];
            && t[i] < |w4'|
            && w4'[t[i]] == (if i < k then w4[tqs[i]] else if i == k then ms else w4[tqs[i - 1]])
            && (i < k ==> w4'[t[i]] < ms) && (i > k ==> w4'[t[i]] > ms)
  {
    var k := Below(w4, tqs, ms);
    InsertAt(tqs, k, q, i);
    if i > k + 1 {
      assert w4[tqs[k]] < w4[tqs[i - 1]];
    }
  }
}
