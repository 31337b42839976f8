/**
 The poll set of src/event/poll.c: events and pollfds in two arrays with a back-index in each event, and
 the scan of evq_wait, during which one-shot events are removed by moving the last entry into their slot.
 */
module PollSet {

  const NEVENT := 64

  /** The bits of pollfd.revents. */
  datatype Revents = Revents(pin: bool, pout: bool, perr: bool, phup: bool, pnval: bool)

  const NOTHING := Revents(false, false, false, false, false)

  datatype PollFd = PollFd(fd: int, read: bool, revents: Revents)

  /** The result flags of one event. */
  datatype Outcome = Outcome(eof: bool, read: bool, write: bool)

  /** The fixed properties of an event. */
  datatype Kind = Kind(read: bool, write: bool, oneshot: bool)

  function Results(r: Revents, k: Kind): Outcome {
    var failed := r.perr || r.phup || r.pnval;
    var read := (r.pin || failed) && k.read;
    Outcome(r.phup, read, !read && (r.pout || failed) && k.write)
  }

  /**
   The two tests of the scan.  The end of the input is told exactly by a hang-up.  An event gets at most one of
   the two other results, one it asks for: reading if there is input or anything wrong, otherwise writing if
   there is room or anything wrong.
   */
  method Report(r: Revents, k: Kind) returns (o: Outcome)
    ensures o == Results(r, k) && (o.eof <==> r.phup) && !(o.read && o.write)
    ensures o.read <==> k.read && (r.pin || r.perr || r.phup || r.pnval)
    ensures o.write <==> k.write && !o.read && (r.pout || r.perr || r.phup || r.pnval)
  {
    o := Outcome(r.phup, false, false);
    if (r.pin || r.perr || r.phup || r.pnval) && k.read {
      o := o.(read := true);
    } else if (r.pout || r.perr || r.phup || r.pnval) && k.write {
      o := o.(write := true);
    }
  }

  datatype Hit = Hit(ev: nat, outcome: Outcome)

  /** The entry of slot `k` is removed: the last entry takes its place. */
  function SwapRemove<T>(s: seq<T>, k: nat): seq<T>
    requires k < |s|
  {
    s[k := s[|s| - 1]][..|s| - 1]
  }

  function HitAt(ev: nat, r: Revents, k: Kind): seq<Hit> {
    if r == NOTHING then [] else [Hit(ev, Results(r, k))]
  }

  /** The hits of the slots from 1 up to `n`: every ready slot once, in order. */
  function Hits(events: seq<nat>, fds: seq<PollFd>, kinds: map<nat, Kind>, n: nat): (r: seq<Hit>)
    requires 1 <= n <= |events| && n <= |fds|
    requires forall j :: 1 <= j < n ==> events[j] in kinds
    decreases n
  {
    if n == 1 then []
    else Hits(events, fds, kinds, n - 1) + HitAt(events[n - 1], fds[n - 1].revents, kinds[events[n - 1]])
  }

  lemma {:induction false} HitsOver(events: seq<nat>, fds: seq<PollFd>, kinds: map<nat, Kind>, k: nat, n: nat)
    requires 1 <= k <= n <= |events| && n <= |fds| && forall j :: 1 <= j < n ==> events[j] in kinds
    requires forall j :: k <= j < n ==> fds[j].revents == NOTHING
    ensures Hits(events, fds, kinds, n) == Hits(events, fds, kinds, k)
    decreases n - k
  {
    if k < n {
      HitsOver(events, fds, kinds, k, n - 1);
    }
  }

  /** How many slots from `i` on are ready. */
  function ReadyFrom(fds: seq<PollFd>, i: nat): (r: nat)
    requires i <= |fds|
    ensures r == 0 ==> forall j :: i <= j < |fds| ==> fds[j].revents == NOTHING
    decreases |fds| - i
  {
    if i == |fds| then 0 else (if fds[i].revents == NOTHING then 0 else 1) + ReadyFrom(fds, i + 1)
  }

  /** Every slot but 0 holds an event with this index, and every event with an index is in that slot. */
  ghost predicate Indexed(s: seq<nat>, index: map<nat, nat>) {
    && (forall i :: 1 <= i < |s| ==> s[i] in index && index[s[i]] == i)
    && (forall e :: e in index ==> 1 <= index[e] < |s| && s[index[e]] == e)
  }

  /** The indexes after the entry of `ev` has been removed. */
  function Reindexed(s: seq<nat>, index: map<nat, nat>, ev: nat): map<nat, nat>
    requires s != [] && ev in index
  {
    (if index[ev] < |s| - 1 then index[s[|s| - 1] := index[ev]] else index) - {ev}
  }

  lemma RemovedIndexed(s: seq<nat>, index: map<nat, nat>, ev: nat)
    requires Indexed(s, index) && ev in index
    ensures Indexed(SwapRemove(s, index[ev]), Reindexed(s, index, ev))
    ensures Reindexed(s, index, ev).Keys == index.Keys - {ev}
  {
    var k, n := index[ev], |s| - 1;
    var r, index' := SwapRemove(s, k), Reindexed(s, index, ev);
    assert s[k] == ev && s[n] in index && index[s[n]] == n;
    forall i | 1 <= i < |r|
      ensures r[i] in index' && index'[r[i]] == i
    {
      assert s[i] in index && index[s[i]] == i;
    }
    forall e | e in index'
      ensures 1 <= index'[e] < |r| && r[index'[e]] == e
    {
      assert e in index && s[index[e]] == e;
    }
  }

  lemma AddedIndexed(s: seq<nat>, index: map<nat, nat>, ev: nat)
    requires Indexed(s, index) && ev !in index && s != []
    ensures Indexed(s + [ev], index[ev := |s|])
  {
    var r := s + [ev];
    forall i | 1 <= i < |r|
      ensures r[i] in index[ev := |s|] && index[ev := |s|][r[i]] == i
    {
      if i < |s| { assert s[i] in index; }
    }
  }

  // ---------------------------------------------------------------- the set on values

  /** The arrays, how many slots are used, and the events' fields. */
  datatype Polls = Polls(events: seq<nat>, fds: seq<PollFd>, npolls: nat, index: map<nat, nat>, kinds: map<nat, Kind>)

  /** Slot 0 is the wake-up descriptor; every other slot and its event point at each other. */
  ghost predicate Sound(p: Polls) {
    && 1 <= p.npolls <= |p.events| == |p.fds| && p.index.Keys == p.kinds.Keys
    && Indexed(p.events[..p.npolls], p.index)
  }

  /** evq_del: the last entry takes the place of the event. */
  ghost function Removed(p: Polls, ev: nat): Polls
    requires Sound(p) && ev in p.index
  {
    var k, n := p.index[ev], p.npolls - 1;
    Polls(if k < n then p.events[k := p.events[n]] else p.events, if k < n then p.fds[k := p.fds[n]] else p.fds, n,
          Reindexed(p.events[..p.npolls], p.index, ev), p.kinds - {ev})
  }

  lemma RemovedSound(p: Polls, ev: nat)
    requires Sound(p) && ev in p.index
    ensures p.index[ev] < p.npolls && Sound(Removed(p, ev)) && Removed(p, ev).index.Keys == p.index.Keys - {ev}
  {
    RemovedIndexed(p.events[..p.npolls], p.index, ev);
    RemovedPrefix(p.events, p.npolls, p.index[ev]);
    SoundIf(Removed(p, ev), SwapRemove(p.events[..p.npolls], p.index[ev]));
  }

  lemma SoundIf(p: Polls, s: seq<nat>)
    requires 1 <= p.npolls <= |p.events| == |p.fds| && p.index.Keys == p.kinds.Keys
    requires p.events[..p.npolls] == s && Indexed(s, p.index)
    ensures Sound(p)
  {
  }

  /** Every other event keeps its descriptor and results, in the slot it now points at; slot 0 stays. */
  lemma RemovedKeepsPairs(p: Polls, ev: nat, e: nat)
    requires Sound(p) && ev in p.index && e in p.index && e != ev
    ensures p.index[e] < p.npolls && p.index[ev] < p.npolls
    ensures var r := Removed(p, ev);
            && e in r.index && 1 <= r.index[e] < r.npolls && r.index[e] < |r.events| && r.index[e] < |r.fds|
            && r.events[r.index[e]] == e && r.fds[r.index[e]] == p.fds[p.index[e]]
            && r.fds[0] == p.fds[0]
  {
    RemovedSound(p, ev);
    var r, s := Removed(p, ev), p.events[..p.npolls];
    assert s[p.index[e]] == e && s[p.index[ev]] == ev;
    assert r.events[..r.npolls][r.index[e]] == e;
  }

  lemma RemovedPrefix<T>(s: seq<T>, n: nat, k: nat)
    requires k < n <= |s|
    ensures (if k < n - 1 then s[k := s[n - 1]] else s)[..n - 1] == SwapRemove(s[..n], k)
  {
  }

  // ---------------------------------------------------------------- the scan

  /** What the scan starts from. */
  datatype Origin = Origin(events: seq<nat>, fds: seq<PollFd>, kinds: map<nat, Kind>, active: set<nat>)

  /** The scan removes an event that is ready, one-shot and not on the ready list yet. */
  predicate Removes(fd: PollFd, kind: Kind, active: bool) {
    fd.revents != NOTHING && kind.oneshot && !active
  }

  ghost predicate Started(o: Origin) {
    && 1 <= |o.events| == |o.fds|
    && (forall j :: 1 <= j < |o.events| ==> o.events[j] in o.kinds)
    && forall i, j :: 1 <= i < j < |o.events| ==> o.events[i] != o.events[j]
  }

  datatype Aspect = Slots | Seats | Kinds | Past | Whole

  /** The scan has reached slot `i`. */
  ghost predicate Holds(a: Aspect, o: Origin, p: Polls, i: nat)
    requires Started(o)
  {
    match a
    case Slots =>   // from slot i on the arrays are as the scan found them
      && |p.events| == |p.fds| >= |o.events| >= p.npolls
      && forall j :: i <= j < |o.events| ==> p.events[j] == o.events[j] && p.fds[j] == o.fds[j]
    case Seats =>   // no event there has moved to a later slot
      forall j {:trigger o.events[j]} :: 1 <= j && i <= j < |o.events| ==>
        o.events[j] in p.index && p.index[o.events[j]] <= j
    case Kinds => p.kinds.Keys == p.index.Keys && forall e :: e in p.kinds ==> e in o.kinds && p.kinds[e] == o.kinds[e]
    case Past =>    // exactly the one-shot events that became ready have left
      forall j {:trigger o.events[j]} :: 1 <= j < i && j < |o.events| ==>
        (o.events[j] in p.index <==> !Removes(o.fds[j], o.kinds[o.events[j]], o.events[j] in o.active))
    case Whole => Sound(p)
  }

  ghost predicate HoldsAt(a: Aspect, o: Origin, p: Polls, i: nat, k: nat)
    requires Started(o)
  {
    Holds(a, o, p, if a == Slots then k else i)
  }

  /** `k` is `i`, or `i` + 1 once slot `i` has been written to. */
  ghost predicate Scanned(o: Origin, p: Polls, i: nat, k: nat)
    requires Started(o)
  {
    forall a {:trigger HoldsAt(a, o, p, i, k)} :: HoldsAt(a, o, p, i, k)
  }

  ghost predicate IsHit(hits: seq<Hit>, ev: nat) {
    exists k :: 0 <= k < |hits| && hits[k].ev == ev
  }

  /** The hits name every ready event once and no other event. */
  lemma {:induction false} EveryReadyOnce(o: Origin, n: nat)
    requires Started(o) && 1 <= n <= |o.events|
    ensures var hits := Hits(o.events, o.fds, o.kinds, n);
            && (forall a, b :: 0 <= a < b < |hits| ==> hits[a].ev != hits[b].ev)
            && (forall j {:trigger o.events[j]} :: 1 <= j < |o.events| ==>
                  (IsHit(hits, o.events[j]) <==> j < n && o.fds[j].revents != NOTHING))
            && forall k :: 0 <= k < |hits| ==> exists j :: 1 <= j < n && o.events[j] == hits[k].ev
    decreases n
  {
    if n > 1 {
      EveryReadyOnce(o, n - 1);
      var was, hits := Hits(o.events, o.fds, o.kinds, n - 1), Hits(o.events, o.fds, o.kinds, n);
      forall j | 1 <= j < |o.events|
        ensures IsHit(hits, o.events[j]) <==> j < n && o.fds[j].revents != NOTHING
      {
        assert IsHit(was, o.events[j]) ==> IsHit(hits, o.events[j]) by { HitStays(was, hits, o.events[j]); }
        if j == n - 1 && o.fds[j].revents != NOTHING {
          assert hits[|was|].ev == o.events[j];
        }
      }
      forall k | 0 <= k < |hits|
        ensures exists j :: 1 <= j < n && o.events[j] == hits[k].ev
      {
        if k < |was| {
          assert hits[k] == was[k];
        } else {
          assert o.events[n - 1] == hits[k].ev;
        }
      }
    }
  }

  /** The event of slot `j` with what its bits yield. */
  ghost predicate IsHitOf(o: Origin, h: Hit, j: nat) {
    j < |o.events| && j < |o.fds| && o.events[j] in o.kinds
    && h == Hit(o.events[j], Results(o.fds[j].revents, o.kinds[o.events[j]]))
  }

  /** Each hit has the results of its own slot. */
  lemma {:induction false} HitsReport(o: Origin, n: nat, k: nat) returns (j: nat)
    requires Started(o) && 1 <= n <= |o.events| && k < |Hits(o.events, o.fds, o.kinds, n)|
    ensures 1 <= j < n && IsHitOf(o, Hits(o.events, o.fds, o.kinds, n)[k], j)
    decreases n
  {
    j := n - 1;
    if n > 1 && k < |Hits(o.events, o.fds, o.kinds, n - 1)| {
      j := HitsReport(o, n - 1, k);
    }
  }

  lemma HitStays(was: seq<Hit>, hits: seq<Hit>, ev: nat)
    requires |was| <= |hits| && hits[..|was|] == was
    ensures IsHit(was, ev) ==> IsHit(hits, ev)
  {
    if IsHit(was, ev) {
      var k :| 0 <= k < |was| && was[k].ev == ev;
      assert hits[..|was|][k] == hits[k];
    }
  }

  lemma ScanStarts(p: Polls, active: set<nat>, o: Origin)
    requires Sound(p) && o == Origin(p.events[..p.npolls], p.fds[..p.npolls], p.kinds, active)
    ensures Started(o) && Scanned(o, p, 1, 1)
  {
    var s := p.events[..p.npolls];
    forall i, j | 1 <= i < j < |s|
      ensures s[i] != s[j]
    {
      assert p.index[s[i]] == i && p.index[s[j]] == j;
    }
    var i: nat := 1;
    forall a
      ensures HoldsAt(a, o, p, i, i)
    {
      match a {
        case Slots =>
        case Seats =>
        case Kinds =>
        case Past =>
        case Whole =>
      }
    }
  }

  /** The event of slot `i`, which is still in the set at this slot or an earlier one. */
  lemma Here(o: Origin, p: Polls, i: nat)
    requires Started(o) && Scanned(o, p, i, i) && 1 <= i < |o.events|
    ensures i < |p.events| == |p.fds| && p.events[i] == o.events[i] && p.fds[i] == o.fds[i] && Sound(p)
    ensures o.events[i] in p.index && p.index[o.events[i]] <= i && o.events[i] in p.kinds
    ensures o.events[i] in o.kinds && p.kinds[o.events[i]] == o.kinds[o.events[i]]
  {
    assert HoldsAt(Slots, o, p, i, i) && HoldsAt(Seats, o, p, i, i) && HoldsAt(Kinds, o, p, i, i) && HoldsAt(Whole, o, p, i, i);
  }

  /** The revents of the slot are cleared. */
  lemma Clears(o: Origin, p: Polls, q: Polls, i: nat)
    requires Started(o) && Scanned(o, p, i, i)
    requires q == p.(fds := q.fds) && |q.fds| == |p.fds| && forall j :: 0 <= j < |p.fds| && j != i ==> q.fds[j] == p.fds[j]
    ensures Scanned(o, q, i, i + 1)
  {
    var k := i + 1;
    forall a
      ensures HoldsAt(a, o, q, i, k)
    {
      assert HoldsAt(a, o, p, i, i);
      match a {
        case Slots =>
        case Seats =>
        case Kinds =>
        case Past =>
        case Whole =>
      }
    }
  }

  /** The event stays. */
  lemma StaysBehind(o: Origin, p: Polls, i: nat, k: nat)
    requires Started(o) && (Scanned(o, p, i, i) || Scanned(o, p, i, k)) && 1 <= i < |o.events| && k == i + 1
    requires !Removes(o.fds[i], o.kinds[o.events[i]], o.events[i] in o.active)
    ensures Scanned(o, p, k, k)
  {
    var j := if Scanned(o, p, i, i) then i else k;
    assert HoldsAt(Seats, o, p, i, j);
    forall a
      ensures HoldsAt(a, o, p, k, k)
    {
      assert HoldsAt(a, o, p, i, j);
      match a {
        case Slots =>
        case Seats =>
        case Kinds =>
        case Past => assert o.events[i] in p.index;
        case Whole =>
      }
    }
  }

  /** The event goes, and the last entry comes to its place, which the scan has passed. */
  lemma GoesBehind(o: Origin, p: Polls, i: nat, k: nat)
    requires Started(o) && Scanned(o, p, i, k) && 1 <= i < |o.events| && k == i + 1
    requires Removes(o.fds[i], o.kinds[o.events[i]], o.events[i] in o.active)
    ensures Sound(p) && o.events[i] in p.index && Scanned(o, Removed(p, o.events[i]), k, k)
  {
    assert HoldsAt(Seats, o, p, i, k) && HoldsAt(Whole, o, p, i, k);
    var ev := o.events[i];
    var q := Removed(p, ev);
    RemovedSound(p, ev);
    forall a
      ensures HoldsAt(a, o, q, k, k)
    {
      assert HoldsAt(a, o, p, i, k);
      match a {
        case Slots => GoneSlots(o, p, i, k);
        case Seats => GoneSeats(o, p, i, k);
        case Kinds =>
        case Past => GonePast(o, p, i, k);
        case Whole =>
      }
    }
  }

  lemma GoneSlots(o: Origin, p: Polls, i: nat, k: nat)
    requires Started(o) && Holds(Slots, o, p, k) && Sound(p) && 1 <= i < |o.events| && k == i + 1
    requires o.events[i] in p.index && p.index[o.events[i]] <= i
    ensures Holds(Slots, o, Removed(p, o.events[i]), k)
  {
  }

  lemma GonePast(o: Origin, p: Polls, i: nat, k: nat)
    requires Started(o) && Holds(Past, o, p, i) && Sound(p) && 1 <= i < |o.events| && k == i + 1
    requires o.events[i] in p.index && Removes(o.fds[i], o.kinds[o.events[i]], o.events[i] in o.active)
    requires Removed(p, o.events[i]).index.Keys == p.index.Keys - {o.events[i]}
    ensures Holds(Past, o, Removed(p, o.events[i]), k)
  {
    forall j | 1 <= j < k && j < |o.events|
      ensures o.events[j] in Removed(p, o.events[i]).index
              <==> !Removes(o.fds[j], o.kinds[o.events[j]], o.events[j] in o.active)
    {
      if j < i { assert o.events[j] != o.events[i]; }
    }
  }

  lemma GoneSeats(o: Origin, p: Polls, i: nat, k: nat)
    requires Started(o) && Holds(Seats, o, p, i) && Sound(p) && 1 <= i < |o.events| && k == i + 1
    requires o.events[i] in p.index && p.index[o.events[i]] <= i
    ensures Holds(Seats, o, Removed(p, o.events[i]), k)
  {
    var ev := o.events[i];
    var q := Removed(p, ev);
    forall j | k <= j < |o.events|
      ensures o.events[j] in q.index && q.index[o.events[j]] <= j
    {
      assert o.events[j] in p.index && p.index[o.events[j]] <= j && o.events[j] != ev;
    }
  }

  /** realloc to `n` elements, the first `used` of them kept. */
  method Reallocated<T>(a: array<T>, used: nat, n: nat, filler: T) returns (b: array<T>)
    requires used <= a.Length && used <= n
    ensures fresh(b) && b.Length == n && b[..used] == a[..used]
  {
    b := new T[n](_ => filler);
    for i := 0 to used
      invariant b[..i] == a[..i]
    {
      b[i] := a[i];
    }
  }

  class PollSet {
    var events: array<nat>
    var fdset: array<PollFd>
    var npolls: nat
    var maxPolls: nat
    var nevents: int
    var index: map<nat, nat>        // ev->index of the events in the set
    var kinds: map<nat, Kind>       // ev->flags of the events in the set

    ghost function Snap(): Polls
      reads this, events, fdset
    {
      Polls(events[..], fdset[..], npolls, index, kinds)
    }

    ghost predicate Valid()
      reads this, events, fdset
    {
      Sound(Snap()) && npolls <= maxPolls <= events.Length == fdset.Length
    }

    constructor (sigFd: int)
      ensures Valid() && npolls == 1 && maxPolls == NEVENT && index == map[] && nevents == 0
      ensures fresh(events) && fresh(fdset)
    {
      events := new nat[NEVENT];
      fdset := new PollFd[NEVENT](_ => PollFd(sigFd, true, NOTHING));
      npolls, maxPolls, nevents, index, kinds := 1, NEVENT, 0, map[], map[];
    }

    /** evq_add of an event that is not in the set; `memory` says whether realloc succeeds. */
    method Add(ev: nat, fd: int, kind: Kind, memory: bool) returns (ok: bool)
      requires Valid() && ev !in index
      modifies this, events, fdset
      ensures Valid() && (events == old(events) || fresh(events)) && (fdset == old(fdset) || fresh(fdset))
      ensures ok <==> old(npolls < maxPolls) || memory
      ensures ok ==> events[..npolls] == old(events[..npolls]) + [ev]
      ensures ok ==> fdset[..npolls] == old(fdset[..npolls]) + [PollFd(fd, kind.read, NOTHING)]
      ensures ok ==> index == old(index)[ev := old(npolls)] && kinds == old(kinds)[ev := kind] && nevents == old(nevents) + 1
      ensures !ok ==> events[..npolls] == old(events[..npolls]) && fdset[..npolls] == old(fdset[..npolls])
      ensures !ok ==> npolls == old(npolls) && index == old(index) && kinds == old(kinds) && nevents == old(nevents)
    {
      if npolls >= maxPolls {
        if !memory {
          return false;
        }
        Grow();
      }
      Append(ev, fd, kind);
      ok := true;
    }

    method Append(ev: nat, fd: int, kind: Kind)
      requires Valid() && ev !in index && npolls < maxPolls
      modifies this, events, fdset
      ensures Valid() && events == old(events) && fdset == old(fdset)
      ensures events[..npolls] == old(events[..npolls]) + [ev]
      ensures fdset[..npolls] == old(fdset[..npolls]) + [PollFd(fd, kind.read, NOTHING)]
      ensures index == old(index)[ev := old(npolls)] && kinds == old(kinds)[ev := kind] && nevents == old(nevents) + 1
    {
      var n := npolls;
      AddedIndexed(events[..n], index, ev);
      fdset[n] := PollFd(fd, kind.read, NOTHING);
      npolls := n + 1;
      events[n] := ev;
      index, kinds := index[ev := n], kinds[ev := kind];
      nevents := nevents + 1;
    }

    /** Both arrays reallocated to twice the capacity. */
    method Grow()
      requires Valid()
      modifies this
      ensures Valid() && fresh(events) && fresh(fdset) && maxPolls == 2 * old(maxPolls)
      ensures npolls == old(npolls) && index == old(index) && kinds == old(kinds) && nevents == old(nevents)
      ensures events[..npolls] == old(events[..npolls]) && fdset[..npolls] == old(fdset[..npolls])
    {
      ghost var p := Snap();
      var n := 2 * maxPolls;
      var e := Reallocated(events, npolls, n, 0);
      var f := Reallocated(fdset, npolls, n, PollFd(0, false, NOTHING));
      events, fdset, maxPolls := e, f, n;
      assert Snap().events[..npolls] == p.events[..npolls];
    }

    /** evq_del of an event with a descriptor; the arrays shrink in capacity only. */
    method Del(ev: nat)
      requires Valid() && ev in index
      modifies this, events, fdset
      ensures Valid() && events == old(events) && fdset == old(fdset)
      ensures Snap() == Removed(old(Snap()), ev) && nevents == old(nevents) - 1
    {
      ghost var p := Snap();
      RemovedSound(p, ev);
      nevents := nevents - 1;
      npolls := npolls - 1;
      var i := index[ev];
      if i < npolls {
        MoveLast(i);
      }
      index, kinds := index - {ev}, kinds - {ev};
      assert p.events[..p.npolls][p.npolls - 1] == p.events[npolls];
      assert Snap() == Removed(p, ev);
      Shrink();
    }

    /** Much room to spare is given back. */
    method Shrink()
      requires npolls <= maxPolls
      modifies `maxPolls
      ensures npolls <= maxPolls <= old(maxPolls)
    {
      if npolls > NEVENT / 2 && npolls <= maxPolls / 4 {
        maxPolls := maxPolls / 2;
      }
    }

    /** The entry just behind the used slots moves to slot `i`. */
    method MoveLast(i: nat)
      requires i < npolls < events.Length == fdset.Length
      modifies events, fdset, `index
      ensures events[..] == old(events[..])[i := old(events[npolls])]
      ensures fdset[..] == old(fdset[..])[i := old(fdset[npolls])]
      ensures index == old(index)[old(events[npolls]) := i]
    {
      events[i] := events[npolls];
      index := index[events[i] := i];
      fdset[i] := fdset[npolls];
    }

    /** evq_modify. */
    method Modify(ev: nat, read: bool)
      requires Valid() && ev in index
      modifies fdset
      ensures Valid() && fdset[..] == old(fdset[..])[index[ev] := old(fdset[index[ev]]).(read := read)]
    {
      fdset[index[ev]] := fdset[index[ev]].(read := read);
    }

    /**
     The scan of evq_wait over the slots, `nready` of them having something to report: every one of them is
     handled exactly once, whatever the removal of one-shot events does to the arrays meanwhile; `active` are
     the events already on the ready list, `pushed` those that join it.
     */
    method Scan(nready: nat, active: set<nat>) returns (ghost o: Origin, hits: seq<Hit>, pushed: seq<nat>)
      requires Valid() && nready == ReadyFrom(fdset[..npolls], 1)
      modifies this, events, fdset
      ensures Valid() && events == old(events) && fdset == old(fdset)
      ensures o == Origin(old(events[..npolls]), old(fdset[..npolls]), old(kinds), active) && Started(o)
      ensures hits == Hits(o.events, o.fds, o.kinds, |o.events|) && pushed == Fresh(hits, active)
      ensures forall j {:trigger o.events[j]} :: 1 <= j < |o.events| ==>
                (o.events[j] in index <==> !Removes(o.fds[j], o.kinds[o.events[j]], o.events[j] in active))
    {
      o := Origin(events[..npolls], fdset[..npolls], kinds, active);
      assert o.events == Snap().events[..npolls] && o.fds == Snap().fds[..npolls];
      ScanStarts(Snap(), active, o);
      var npolls0, i, left, ready := npolls, 1, nready, active;
      hits, pushed := [], [];
      while i < npolls0 && left != 0
        invariant events == old(events) && fdset == old(fdset) && Valid() && npolls0 == |o.events|
        invariant Scanning(o, Snap(), i, left, ready, hits, pushed)
      {
        var joined: seq<nat>, told: seq<Hit>;
        left, ready, told, joined := Turn(o, i, left, ready, hits, pushed);
        hits, pushed := hits + told, pushed + joined;
        i := i + 1;
      }
      ScanEnds(o, Snap(), i, left, ready, hits, pushed);
    }

    /** One round of the loop; `told` holds the results of a ready event, `joined` one that joins the ready list. */
    method Turn(ghost o: Origin, i: nat, left: nat, ready: set<nat>, ghost hits: seq<Hit>, ghost pushed: seq<nat>)
      returns (left': nat, ready': set<nat>, told: seq<Hit>, joined: seq<nat>)
      requires Valid() && left != 0 && i < |o.events| && Scanning(o, Snap(), i, left, ready, hits, pushed)
      modifies this, events, fdset
      ensures Valid() && events == old(events) && fdset == old(fdset)
      ensures Scanning(o, Snap(), i + 1, left', ready', hits + told, pushed + joined)
    {
      left', ready', told, joined := left, ready, [], [];
      Here(o, Snap(), i);
      if fdset[i].revents != NOTHING {
        var ev, outcome, joins := Handle(o, i, ready);
        told := [Hit(ev, outcome)];
        if joins {
          ready', joined := ready + {ev}, [ev];
        }
        left' := left - 1;
      } else {
        StaysBehind(o, Snap(), i, i + 1);
      }
      Turned(o, Snap(), i, left, ready, ready', hits, pushed);
    }

    /** One ready slot; whether its event joins the ready list. */
    method Handle(ghost o: Origin, i: nat, ready: set<nat>)
        returns (ev: nat, outcome: Outcome, joins: bool)
      requires Valid() && Started(o) && 1 <= i < |o.events| && Scanned(o, Snap(), i, i) && o.fds[i].revents != NOTHING
      requires o.events[i] in ready <==> o.events[i] in o.active
      modifies this, events, fdset
      ensures Valid() && events == old(events) && fdset == old(fdset) && Scanned(o, Snap(), i + 1, i + 1)
      ensures ev == o.events[i] && outcome == Results(o.fds[i].revents, o.kinds[ev]) && (joins <==> ev !in o.active)
    {
      ghost var p := Snap();
      Here(o, p, i);
      ev := events[i];
      var revents := fdset[i].revents;
      Clear(i);
      Clears(o, p, Snap(), i);
      outcome := Report(revents, kinds[ev]);
      joins := ev !in ready;
      if joins && kinds[ev].oneshot {
        GoesBehind(o, Snap(), i, i + 1);
        Del(ev);
      } else {
        StaysBehind(o, Snap(), i, i + 1);
      }
    }

    method Clear(i: nat)
      requires Valid() && i < fdset.Length
      modifies fdset
      ensures Valid() && Snap() == old(Snap()).(fds := Snap().fds)
      ensures forall j :: 0 <= j < fdset.Length && j != i ==> Snap().fds[j] == old(Snap()).fds[j]
    {
      fdset[i] := fdset[i].(revents := NOTHING);
    }
  }

  /** What the loop has done when it is at slot `i`. */
  ghost predicate Scanning(o: Origin, p: Polls, i: nat, left: nat, ready: set<nat>, hits: seq<Hit>, pushed: seq<nat>) {
    && Started(o) && 1 <= i <= |o.events| && Scanned(o, p, i, i) && left == ReadyFrom(o.fds, i)
    && (forall j {:trigger o.events[j]} :: i <= j < |o.events| ==> (o.events[j] in ready <==> o.events[j] in o.active))
    && hits == Hits(o.events, o.fds, o.kinds, i) && pushed == Fresh(hits, o.active)
  }

  /** What a round adds. */
  lemma Turned(o: Origin, p: Polls, i: nat, left: nat, ready: set<nat>, ready': set<nat>, hits: seq<Hit>, pushed: seq<nat>)
    requires Started(o) && 1 <= i < |o.events| && Scanned(o, p, i + 1, i + 1) && left == ReadyFrom(o.fds, i)
    requires forall j {:trigger o.events[j]} :: i <= j < |o.events| ==> (o.events[j] in ready <==> o.events[j] in o.active)
    requires hits == Hits(o.events, o.fds, o.kinds, i) && pushed == Fresh(hits, o.active)
    requires ready' == ready || ready' == ready + {o.events[i]}
    ensures var hit := HitAt(o.events[i], o.fds[i].revents, o.kinds[o.events[i]]);
            && (hit != [] ==> left > 0)
            && Scanning(o, p, i + 1, if hit == [] then left else left - 1, ready', hits + hit,
                        pushed + if hit == [] || o.events[i] in o.active then [] else [o.events[i]])
  {
    var hit := HitAt(o.events[i], o.fds[i].revents, o.kinds[o.events[i]]);
    assert Hits(o.events, o.fds, o.kinds, i + 1) == hits + hit;
    if hit == [] {
      assert hits + hit == hits && pushed + [] == pushed;
    } else {
      assert hit == [hit[0]] && hit[0].ev == o.events[i];
      FreshSnoc(hits, hit[0], o.active);
    }
  }

  lemma ScanEnds(o: Origin, p: Polls, i: nat, left: nat, ready: set<nat>, hits: seq<Hit>, pushed: seq<nat>)
    requires Scanning(o, p, i, left, ready, hits, pushed) && (i == |o.events| || left == 0)
    ensures hits == Hits(o.events, o.fds, o.kinds, |o.events|)
    ensures forall j {:trigger o.events[j]} :: 1 <= j < |o.events| ==>
              (o.events[j] in p.index <==> !Removes(o.fds[j], o.kinds[o.events[j]], o.events[j] in o.active))
  {
    Finished(o, p, i);
    HitsOver(o.events, o.fds, o.kinds, i, |o.events|);
  }

  lemma FreshSnoc(hits: seq<Hit>, h: Hit, active: set<nat>)
    ensures Fresh(hits + [h], active) == Fresh(hits, active) + if h.ev in active then [] else [h.ev]
  {
    assert (hits + [h])[..|hits|] == hits;
  }

  /** When no ready slot is left, every slot has been dealt with. */
  lemma Finished(o: Origin, p: Polls, i: nat)
    requires Started(o) && Scanned(o, p, i, i) && 1 <= i <= |o.events|
    requires i == |o.events| || ReadyFrom(o.fds, i) == 0
    ensures Sound(p)
    ensures forall j {:trigger o.events[j]} :: 1 <= j < |o.events| ==>
              (o.events[j] in p.index <==> !Removes(o.fds[j], o.kinds[o.events[j]], o.events[j] in o.active))
  {
    assert HoldsAt(Seats, o, p, i, i) && HoldsAt(Past, o, p, i, i) && HoldsAt(Whole, o, p, i, i);
  }

  /** The events among the hits that were not active before, in order. */
  function Fresh(hits: seq<Hit>, active: set<nat>): seq<nat> {
    if hits == [] then []
    else
      Fresh(hits[..|hits| - 1], active)
      + if hits[|hits| - 1].ev in active then [] else [hits[|hits| - 1].ev]
  }
}
