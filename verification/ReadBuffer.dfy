/**
 The read loop of src/sys_file.c over the buffers of src/mem/sys_mem.c: a local buffer that moves to the
 heap and doubles, or a memory buffer that grows.
 */
module ReadBuffer {
  import opened Bytes
  import opened Powers
  import opened MemBuffer

  // ---------------------------------------------------------------- how much the loop reads

  /** How many bytes the source is willing to deliver in a call; nothing after the last. */
  function Want(lens: seq<int>, call: nat): int {
    if call < |lens| then lens[call] else 0
  }

  /** What one read() returns: -1, or how many of the `left` bytes it puts into `room`. */
  function ReadLen(lens: seq<int>, call: nat, room: nat, left: nat): (nr: int)
    ensures -1 <= nr <= room && nr <= left
  {
    var want := Want(lens, call);
    if want < 0 then -1 else if want <= room && want <= left then want else if room <= left then room else left
  }

  function Least(a: nat, b: nat): nat { if a <= b then a else b }

  /** How many bytes have been read, how the last read ended, and its length if no room could be made after it. */
  datatype Progress = Progress(n: nat, failed: bool, stuck: nat)

  /**
   The loop when `n` of `avail` bytes have been read: the next read has `room`, and after one that fills it
   as much room follows as there are bytes in front of the write pointer, `base` of them there from the
   start.  The first `allocs` allocations succeed.
   */
  function Reads(avail: nat, lens: seq<int>, call: nat, base: nat, room: nat, count: nat, n: nat, allocs: nat): (r: Progress)
    requires n <= avail && n <= count
    ensures n <= r.n <= avail && r.n <= count && r.stuck <= r.n - n
    decreases count - n, allocs
  {
    var rlen := Least(count - n, room);
    var nr := ReadLen(lens, call, rlen, avail - n);
    if nr < 0 then Progress(n, true, 0)
    else if n + nr == count || nr < rlen then Progress(n + nr, false, 0)
    else if allocs == 0 then Progress(n + nr, false, nr)
    else Reads(avail, lens, call + 1, base, base + n + nr, count, n + nr, allocs - 1)
  }

  /** If no read is short before the end of the input, all of it is read, or `count` bytes of it. */
  lemma {:induction false} ReadsAll(avail: nat, lens: seq<int>, call: nat, base: nat, room: nat, count: nat, n: nat, allocs: nat,
                                    turns: nat)
    requires n <= avail && n <= count && room > 0
    requires turns > count - n && allocs >= turns && call + turns <= |lens|
    requires forall k :: call <= k < call + turns ==> lens[k] >= count
    ensures Reads(avail, lens, call, base, room, count, n, allocs) == Progress(Least(avail, count), false, 0)
    decreases count - n
  {
    var rlen := Least(count - n, room);
    var nr := ReadLen(lens, call, rlen, avail - n);
    assert lens[call] >= count;
    assert nr == Least(rlen, avail - n);
    if n + nr != count && nr == rlen {
      ReadsAll(avail, lens, call + 1, base, base + n + nr, count, n + nr, allocs - 1, turns - 1);
    }
  }

  // ---------------------------------------------------------------- how the loop ends, from its inputs

  /** What has been read when `k` reads in a row have filled the room. */
  function FullTo(base: nat, room: nat, k: nat): nat
    decreases k, 0
  {
    if k == 0 then 0 else FullTo(base, room, k - 1) + RoomAt(base, room, k - 1)
  }

  /** The room then: as much as is in front of the write pointer. */
  function RoomAt(base: nat, room: nat, k: nat): nat
    decreases k, 1
  {
    if k == 0 then room else base + FullTo(base, room, k)
  }

  /** The buffer doubles each time. */
  lemma {:induction false} RoomDoubles(base: nat, room: nat, k: nat)
    ensures RoomAt(base, room, k + 1) == (base + room) * Pow2(k)
    decreases k
  {
    if k > 0 {
      RoomDoubles(base, room, k - 1);
      Scaled(base + room, Pow2(k - 1));
    }
  }

  lemma Scaled(len: nat, h: nat)
    ensures len * (2 * h) == len * h + len * h
  {
  }

  lemma {:induction false} RoomStays(base: nat, room: nat, k: nat)
    requires room > 0
    ensures RoomAt(base, room, k) > 0 && (k > 0 ==> FullTo(base, room, k) > 0)
    decreases k
  {
    if k > 0 { RoomStays(base, room, k - 1); }
  }

  /** Read `k` fills the room and leaves bytes to be asked for. */
  predicate FullRead(avail: nat, lens: seq<int>, call: nat, base: nat, room: nat, count: nat, k: nat) {
    && Want(lens, call + k) >= RoomAt(base, room, k)
    && avail >= FullTo(base, room, k + 1) && count > FullTo(base, room, k + 1)
  }

  /** The first `k` reads do. */
  predicate FullReads(avail: nat, lens: seq<int>, call: nat, base: nat, room: nat, count: nat, k: nat) {
    forall j {:trigger FullRead(avail, lens, call, base, room, count, j)} ::
      0 <= j < k ==> FullRead(avail, lens, call, base, room, count, j)
  }

  /** An error comes after reads that filled the room. */
  predicate FailsLate(avail: nat, lens: seq<int>, call: nat, base: nat, room: nat, count: nat, allocs: nat) {
    exists k {:trigger FullReads(avail, lens, call, base, room, count, k)} :: 0 <= k <= allocs
      && FullReads(avail, lens, call, base, room, count, k) && Want(lens, call + k) < 0 && FullTo(base, room, k) > 0
  }

  /** The allocation after a read that filled the room fails. */
  predicate RunsOut(avail: nat, lens: seq<int>, call: nat, base: nat, room: nat, count: nat, allocs: nat) {
    FullReads(avail, lens, call, base, room, count, allocs + 1) && RoomAt(base, room, allocs) > 0
  }

  /** Before read `k` the loop has come to `n` bytes and `room`, the `k` reads before having been full. */
  ghost predicate Reaches(p: Progress, avail: nat, lens: seq<int>, call: nat, base: nat, room: nat, count: nat, n: nat, allocs: nat) {
    n <= avail && n <= count && p == Reads(avail, lens, call, base, room, count, n, allocs)
  }

  /** Neither happens. */
  predicate Whole(avail: nat, lens: seq<int>, call: nat, base: nat, room: nat, count: nat, allocs: nat) {
    !FailsLate(avail, lens, call, base, room, count, allocs) && !RunsOut(avail, lens, call, base, room, count, allocs)
  }

  /** Full reads lead the loop on to the `k`th. */
  lemma {:induction false} ReadsOn(p: Progress, avail: nat, lens: seq<int>, call: nat, base: nat, room: nat, count: nat,
                                   allocs: nat, k: nat)
    requires FullReads(avail, lens, call, base, room, count, k) && k <= allocs
    requires p == Reads(avail, lens, call, base, room, count, 0, allocs)
    ensures Reaches(p, avail, lens, call + k, base, RoomAt(base, room, k), count, FullTo(base, room, k), allocs - k)
    decreases k
  {
    if k > 0 {
      ReadsOn(p, avail, lens, call, base, room, count, allocs, k - 1);
      assert FullRead(avail, lens, call, base, room, count, k - 1);
      ReadStep(p, avail, lens, call + k - 1, base, RoomAt(base, room, k - 1), count, FullTo(base, room, k - 1), allocs - k + 1,
               RoomAt(base, room, k), FullTo(base, room, k));
    }
  }

  /** One full read, after which `n'` bytes have been read and there is room for `room'`. */
  lemma ReadStep(p: Progress, avail: nat, lens: seq<int>, call: nat, base: nat, room: nat, count: nat, n: nat, allocs: nat,
                 room': nat, n': nat)
    requires Reaches(p, avail, lens, call, base, room, count, n, allocs)
    requires Want(lens, call) >= room && avail >= n' && count > n' && allocs > 0
    requires n' == n + room && room' == base + n'
    ensures Reaches(p, avail, lens, call + 1, base, room', count, n', allocs - 1)
  {
  }

  /** The read that ends the loop: the first that is not full, or the one after the last allocation. */
  ghost predicate LastRead(avail: nat, lens: seq<int>, call: nat, base: nat, room: nat, count: nat, allocs: nat, k: nat) {
    && k <= allocs && FullReads(avail, lens, call, base, room, count, k)
    && (k == allocs || !FullRead(avail, lens, call, base, room, count, k))
  }

  lemma {:induction false} FindLast(avail: nat, lens: seq<int>, call: nat, base: nat, room: nat, count: nat, allocs: nat, i: nat)
      returns (k: nat)
    requires i <= allocs && FullReads(avail, lens, call, base, room, count, i)
    ensures LastRead(avail, lens, call, base, room, count, allocs, k)
    decreases allocs - i
  {
    if i == allocs || !FullRead(avail, lens, call, base, room, count, i) {
      k := i;
    } else {
      k := FindLast(avail, lens, call, base, room, count, allocs, i + 1);
    }
  }

  /** How the loop ends. */
  lemma EndsAt(avail: nat, lens: seq<int>, call: nat, base: nat, room: nat, count: nat, allocs: nat, k: nat)
    requires LastRead(avail, lens, call, base, room, count, allocs, k)
    ensures var p := Reads(avail, lens, call, base, room, count, 0, allocs);
            && (p.failed <==> Want(lens, call + k) < 0) && (p.failed ==> p.n == FullTo(base, room, k))
            && p.stuck == if FullRead(avail, lens, call, base, room, count, k) then RoomAt(base, room, k) else 0
  {
    ReadsOn(Reads(avail, lens, call, base, room, count, 0, allocs), avail, lens, call, base, room, count, allocs, k);
  }

  /** Exactly when bytes have been read before an error, and exactly when no room could be made after a read. */
  lemma ReadsEndIff(avail: nat, lens: seq<int>, call: nat, base: nat, room: nat, count: nat, allocs: nat)
    ensures var p := Reads(avail, lens, call, base, room, count, 0, allocs);
            && (p.failed && p.n > 0 <==> FailsLate(avail, lens, call, base, room, count, allocs))
            && (p.stuck > 0 <==> RunsOut(avail, lens, call, base, room, count, allocs))
            && (p.failed ==> p.stuck == 0)
  {
    var k := FindLast(avail, lens, call, base, room, count, allocs, 0);
    EndsAt(avail, lens, call, base, room, count, allocs, k);
    OnlyLast(avail, lens, call, base, room, count, allocs, k);
  }

  /** An error ends the loop, so it comes at the last read; and only a full last read runs out of room. */
  lemma OnlyLast(avail: nat, lens: seq<int>, call: nat, base: nat, room: nat, count: nat, allocs: nat, k: nat)
    requires LastRead(avail, lens, call, base, room, count, allocs, k)
    ensures FailsLate(avail, lens, call, base, room, count, allocs) <==> Want(lens, call + k) < 0 && FullTo(base, room, k) > 0
    ensures RunsOut(avail, lens, call, base, room, count, allocs)
            <==> FullRead(avail, lens, call, base, room, count, k) && RoomAt(base, room, k) > 0
  {
    if FailsLate(avail, lens, call, base, room, count, allocs) {
      var i :| 0 <= i <= allocs && FullReads(avail, lens, call, base, room, count, i) && Want(lens, call + i) < 0
               && FullTo(base, room, i) > 0;
      assert i < k ==> FullRead(avail, lens, call, base, room, count, i);
      assert k < i ==> FullRead(avail, lens, call, base, room, count, k);
    }
    if RunsOut(avail, lens, call, base, room, count, allocs) {
      assert FullRead(avail, lens, call, base, room, count, k);
    } else if FullRead(avail, lens, call, base, room, count, k) {
      assert FullReads(avail, lens, call, base, room, count, allocs + 1) ==> RoomAt(base, room, allocs) == 0;
    }
  }

  /** What reading delivers: the bytes to come, and how many at most each single read returns (-1: an error). */
  class Source {
    const input: seq<byte>
    const lens: seq<int>
    var pos: nat
    var calls: nat

    ghost predicate Valid()
      reads this
    {
      pos <= |input|
    }

    constructor (bytes: seq<byte>, sizes: seq<int>)
      ensures Valid() && input == bytes && lens == sizes && pos == 0 && calls == 0
    {
      input, lens, pos, calls := bytes, sizes, 0, 0;
    }

    /** read(): -1, or the number of bytes put into the buffer. */
    method Read(room: nat) returns (nr: int, chunk: seq<byte>)
      requires Valid()
      modifies this
      ensures nr == ReadLen(lens, old(calls), room, |input| - old(pos)) && calls == old(calls) + 1
      ensures Valid() && pos == old(pos) + (if nr < 0 then 0 else nr) && chunk == input[old(pos)..pos]
    {
      nr := ReadLen(lens, calls, room, |input| - pos);
      calls := calls + 1;
      chunk := [];
      if nr >= 0 {
        chunk := input[pos..pos + nr];
        pos := pos + nr;
      }
    }
  }

  // ---------------------------------------------------------------- a string

  /** struct sys_buffer over a local buffer; once grown, `filled` bytes of `area` are behind the write pointer. */
  class LocalBuffer {
    var area: array<byte>
    var grown: bool
    var filled: nat     // osb.size
    var size: nat       // sb.size: the room at the write pointer

    ghost var contents: seq<byte>   // what has been read into the buffer

    ghost predicate Valid()
      reads this, area
    {
      && 0 < size && area.Length == filled + size && filled == (if grown then size else 0)
      && filled <= |contents| <= area.Length && area[..|contents|] == contents
    }

    constructor (len: nat)
      requires 0 < len
      ensures Valid() && contents == [] && filled == 0 && size == len && fresh(area)
    {
      area := new byte[len];
      grown, filled, size, contents := false, 0, len, [];
      new;
      assert area[..0] == [];
    }

    /** The kernel's side of a read. */
    method Fill(chunk: seq<byte>)
      requires Valid() && |contents| == filled && |chunk| <= size
      modifies area, `contents
      ensures Valid() && contents == old(contents) + chunk
    {
      for i := 0 to |chunk|
        invariant contents == old(contents) && area[..filled + i] == contents + chunk[..i]
      {
        area[filled + i] := chunk[i];
      }
      contents := contents + chunk;
    }

    /** sys_buffer_write_next: the room is used up, and as much again as there is now is allocated. */
    method Next(memory: bool) returns (ok: bool)
      requires Valid() && |contents| == area.Length
      modifies this
      ensures Valid() && contents == old(contents) && (ok <==> memory)
      ensures if ok then fresh(area) && filled == size == |contents|
              else area == old(area) && filled == old(filled) && size == old(size)
    {
      if !memory {
        return false;
      }
      var used := if !grown then size else 2 * filled;
      var p := new byte[2 * used];
      forall i | 0 <= i < area.Length {
        p[i] := area[i];
      }
      if grown {
        size := used;
      }
      assert p[..used] == area[..];
      area, filled, grown := p, used, true;
      ok := true;
    }

    /** sys_buffer_write_done: the bytes behind the write pointer and `tail` more, or one less for -1. */
    method Done(tail: int) returns (s: seq<byte>)
      requires Valid() && 0 <= filled + tail <= |contents|
      ensures s == contents[..filled + tail]
    {
      s := area[..filled + tail];
    }
  }

  /** What sys_read returns: a string, the end of the input, or an error. */
  datatype Outcome = Data(s: seq<byte>) | EndOfInput | Error

  /** What sys_read makes of the bytes it has read: an error after a read that filled the buffer costs the last one. */
  function Returned(got: seq<byte>, failed: bool): Outcome {
    if got == [] then if failed then Error else EndOfInput
    else Data(if failed then got[..|got| - 1] else got)
  }

  /**
   sys_read into a string gives back all that was read, or tells that there was nothing, if and only if no
   error comes after reads that filled the buffer.
   */
  lemma StringWholeIff(got: seq<byte>, avail: nat, lens: seq<int>, call: nat, len: nat, count: nat, allocs: nat)
    requires 0 < len && |got| == Reads(avail, lens, call, 0, len, count, 0, allocs).n
    ensures var p := Reads(avail, lens, call, 0, len, count, 0, allocs);
            (Returned(got, p.failed) == if got != [] then Data(got) else if p.failed then Error else EndOfInput)
            <==> !FailsLate(avail, lens, call, 0, len, count, allocs)
  {
    ReadsEndIff(avail, lens, call, 0, len, count, allocs);
  }

  /** An input that fails: a read of a whole buffer, then an error.  The last byte is lost. */
  lemma ByteLost(got: seq<byte>, lens: seq<int>, len: nat, count: nat)
    requires 0 < len < count && |got| == len && |lens| == 2 && lens[0] == len && lens[1] == -1
    ensures Reads(len, lens, 0, 0, len, count, 0, 1) == Progress(len, true, 0)
    ensures FailsLate(len, lens, 0, 0, len, count, 1)
    ensures Returned(got, true) == Data(got[..len - 1])
  {
    assert FullRead(len, lens, 0, 0, len, count, 0);
    assert FullReads(len, lens, 0, 0, len, count, 1);
    ReadsOn(Reads(len, lens, 0, 0, len, count, 0, 1), len, lens, 0, 0, len, count, 1, 1);
  }

  /** sys_read into a string of at most `count` bytes. */
  method ReadString(src: Source, count: nat, len: nat, allocs: nat) returns (r: Outcome, ghost p: Progress)
    requires src.Valid() && 0 < len
    modifies src
    ensures src.Valid() && src.pos >= old(src.pos)
    ensures p == Reads(|src.input| - old(src.pos), src.lens, old(src.calls), 0, len, count, 0, allocs)
    ensures src.pos == old(src.pos) + p.n && r == Returned(src.input[old(src.pos)..src.pos], p.failed)
  {
    var sb := new LocalBuffer(len);
    ghost var start: nat, avail: nat := src.pos, |src.input| - src.pos;
    p := Reads(avail, src.lens, src.calls, 0, len, count, 0, allocs);
    var n: nat, memory: nat := count, allocs;
    var nr, more := 0, true;
    Begins(p, avail, src.lens, src.calls, 0, sb.size, count, allocs);
    while more
      invariant src.Valid() && sb.Valid() && fresh(sb) && fresh(sb.area) && n <= count && avail == |src.input| - start
      invariant if more then At(p, src, sb, start, avail, count, n, memory) else Ended(p, src, sb, start, count, n, nr)
      decreases more, n, memory
    {
      nr, more := Turn(p, src, sb, start, avail, count, n, memory);
      if nr >= 0 {
        n := n - nr;
      }
      if more {
        memory := memory - 1;
      }
    }
    r := Finish(src, sb, start, count, n, nr);
  }

  /** Before a round of the loop. */
  ghost predicate At(p: Progress, src: Source, sb: LocalBuffer, start: nat, avail: nat, count: nat, n: nat, memory: nat)
    reads src, sb
  {
    && n <= count && src.pos == start + (count - n) && avail + start == |src.input| && Held(sb, src, start, 0)
    && Going(p, avail, src.lens, src.calls, 0, sb.size, count, n, memory)
  }

  /** After the last round. */
  ghost predicate Ended(p: Progress, src: Source, sb: LocalBuffer, start: nat, count: nat, n: nat, nr: int)
    reads src, sb
  {
    && n <= count && src.pos == start + (count - n) && Over(p, count, n, nr)
    && Held(sb, src, start, if nr < 0 then 0 else nr)
  }

  /** One round, in terms of the whole loop. */
  method Turn(ghost p: Progress, src: Source, sb: LocalBuffer, ghost start: nat, ghost avail: nat, ghost count: nat, n: nat,
              memory: nat) returns (nr: int, more: bool)
    requires src.Valid() && sb.Valid() && At(p, src, sb, start, avail, count, n, memory)
    modifies src, sb, sb.area
    ensures src.Valid() && sb.Valid() && (sb.area == old(sb.area) || fresh(sb.area)) && -1 <= nr <= n
    ensures more ==> 0 < memory && 0 < nr && At(p, src, sb, start, avail, count, n - nr, memory - 1)
    ensures !more ==> Ended(p, src, sb, start, count, if nr < 0 then n else n - nr, nr)
  {
    Round(p, avail, src.lens, src.calls, 0, sb.size, count, n, memory);
    nr, more := ReadOnce(src, sb, start, n, memory);
  }

  datatype Claim = BoundsClaim | LoopClaim

  ghost predicate Stands(c: Claim, p: Progress, avail: nat, lens: seq<int>, call: nat, base: nat, room: nat, count: nat, left: nat,
                         allocs: nat) {
    && left <= count && count - left <= avail
    && (c == LoopClaim ==> p == Reads(avail, lens, call, base, room, count, count - left, allocs))
  }

  /** With `left` bytes still to read, the rest of the loop ends in `p`. */
  ghost predicate Going(p: Progress, avail: nat, lens: seq<int>, call: nat, base: nat, room: nat, count: nat, left: nat, allocs: nat) {
    forall c {:trigger Stands(c, p, avail, lens, call, base, room, count, left, allocs)} ::
      Stands(c, p, avail, lens, call, base, room, count, left, allocs)
  }

  lemma Begins(p: Progress, avail: nat, lens: seq<int>, call: nat, base: nat, room: nat, count: nat, allocs: nat)
    requires p == Reads(avail, lens, call, base, room, count, 0, allocs)
    ensures Going(p, avail, lens, call, base, room, count, count, allocs)
  {
  }

  /** The loop is over. */
  ghost predicate Over(p: Progress, count: nat, left: nat, nr: int) {
    left <= count && p.n == count - left && (p.failed <==> nr == -1) && -1 <= nr <= p.n
  }

  lemma Round(p: Progress, avail: nat, lens: seq<int>, call: nat, base: nat, room: nat, count: nat, left: nat, allocs: nat)
    requires Going(p, avail, lens, call, base, room, count, left, allocs) && left <= count <= avail + left
    ensures var rlen := Least(left, room);
            var nr := ReadLen(lens, call, rlen, avail - (count - left));
            if nr < 0 then Over(p, count, left, nr) && p.stuck == 0
            else if nr == left || nr < rlen then Over(p, count, left - nr, nr) && p.stuck == 0
            else if allocs == 0 then Over(p, count, left - nr, nr) && p.stuck == nr
            else Going(p, avail, lens, call + 1, base, base + (count - left) + nr, count, left - nr, allocs - 1)
  {
    assert Stands(LoopClaim, p, avail, lens, call, base, room, count, left, allocs);
  }

  /** The end of sys_read. */
  method Finish(src: Source, sb: LocalBuffer, ghost start: nat, count: nat, n: nat, nr: int) returns (r: Outcome)
    requires src.Valid() && sb.Valid() && n <= count && src.pos == start + (count - n) && -1 <= nr
    requires Held(sb, src, start, if nr < 0 then 0 else nr) && (nr < 0 && count != n ==> sb.filled > 0)
    ensures r == Returned(src.input[start..src.pos], nr == -1)
  {
    if nr <= 0 && count == n {
      return if nr == 0 then EndOfInput else Error;
    }
    var s := sb.Done(nr);
    r := Data(s);
  }

  /** The buffer holds what has been read, `tail` bytes of it at the write pointer. */
  ghost predicate Held(sb: LocalBuffer, src: Source, start: nat, tail: nat)
    reads sb, src
  {
    |sb.contents| == sb.filled + tail && start <= src.pos <= |src.input| && sb.contents == src.input[start..src.pos]
  }

  /** One round of the loop: the result of read(), and whether there is room for another round. */
  method ReadOnce(src: Source, sb: LocalBuffer, ghost start: nat, n: nat, memory: nat) returns (nr: int, more: bool)
    requires src.Valid() && sb.Valid() && Held(sb, src, start, 0)
    modifies src, sb, sb.area
    ensures src.Valid() && sb.Valid() && (sb.area == old(sb.area) || fresh(sb.area)) && src.calls == old(src.calls) + 1
    ensures nr == ReadLen(src.lens, old(src.calls), Least(n, old(sb.size)), |src.input| - old(src.pos))
    ensures src.pos == old(src.pos) + if nr < 0 then 0 else nr
    ensures more <==> nr >= 0 && nr < n && nr == Least(n, old(sb.size)) && memory > 0
    ensures if more then Held(sb, src, start, 0) && sb.size == src.pos - start && sb.size > 0
            else Held(sb, src, start, if nr < 0 then 0 else nr)
  {
    var rlen := if n <= sb.size then n else sb.size;
    var chunk: seq<byte>;
    ghost var at := src.pos;
    nr, chunk := src.Read(rlen);
    more := false;
    if nr == -1 {
      return;
    }
    sb.Fill(chunk);
    Joined(src.input, start, at, src.pos);
    if n == nr || nr != rlen {
      return;
    }
    more := sb.Next(memory > 0);
  }

  lemma Extended(init: seq<byte>, s: seq<byte>, a: nat, b: nat, c: nat)
    requires a <= b <= c <= |s|
    ensures init + s[a..b] + s[b..c] == init + s[a..c]
  {
  }

  lemma Joined(s: seq<byte>, a: nat, b: nat, c: nat)
    requires a <= b <= c <= |s|
    ensures s[a..b] + s[b..c] == s[a..c]
  {
  }

  // ---------------------------------------------------------------- a memory buffer

  datatype Answer = Bytes(n: nat) | NothingLeft | ReadError

  /** The bytes in front of the write pointer and `tail` more are `bytes`. */
  ghost predicate Filled(mb: Membuf, bytes: seq<byte>, tail: nat)
    reads mb, mb.data
  {
    mb.Valid() && |bytes| == mb.offset + tail <= mb.data.Length && mb.data[..|bytes|] == bytes
  }

  /** A read that fills the room: the write pointer goes to the end, and the buffer grows. */
  method NextRoom(mb: Membuf, ghost bytes: seq<byte>, memory: bool) returns (ok: bool)
    requires mb.Valid() && mb.offset <= mb.data.Length == |bytes| && mb.data[..] == bytes
    modifies mb
    ensures mb.Valid() && mb.offset == |bytes| && mb.data[..|bytes|] == bytes && (mb.data == old(mb.data) || fresh(mb.data))
    ensures ok <==> mb.canGrow && memory
    ensures if ok then mb.data.Length == 2 * |bytes| else mb.data == old(mb.data)
  {
    mb.offset := mb.data.Length;
    ok := mb.MakeRoom(0, memory);
  }

  /**
   sys_read into a memory buffer.  If an allocation fails after a read that filled the buffer, the write
   pointer is moved twice over the bytes of this read; see BufferWholeIff.
   */
  method ReadInto(src: Source, mb: Membuf, count: nat, allocs: nat) returns (r: Answer, ghost p: Progress)
    requires src.Valid() && mb.Valid()
    modifies src, mb, mb.data
    ensures src.Valid() && src.pos >= old(src.pos) && 0 < mb.data.Length
    ensures p == Reads(|src.input| - old(src.pos), src.lens, old(src.calls), old(mb.offset),
                       old(mb.data.Length - mb.offset), count, 0, if mb.canGrow then allocs else 0)
    ensures src.pos == old(src.pos) + p.n && r == AnswerOf(p)
    ensures Received(mb, old(mb.Contents()) + src.input[old(src.pos)..src.pos], old(mb.offset), p)
    ensures !mb.canGrow ==> mb.data == old(mb.data)
    ensures var a, m := old(mb.offset), if mb.canGrow then allocs else 0;
            mb.offset == a + p.n <==> Whole(|src.input| - old(src.pos), src.lens, old(src.calls), a, old(mb.data.Length) - a, count, m)
  {
    ghost var avail: nat, call, a, room: nat := |src.input| - src.pos, src.calls, mb.offset, mb.data.Length - mb.offset;
    ghost var m := if mb.canGrow then allocs else 0;
    p := Reads(avail, src.lens, call, a, room, count, 0, m);
    Begins(p, avail, src.lens, call, a, room, count, m);
    r := Loop(p, src, mb, mb.Contents(), avail, count, allocs);
    BufferWholeIff(avail, src.lens, call, a, room, count, m);
  }

  method Loop(ghost p: Progress, src: Source, mb: Membuf, ghost init: seq<byte>, ghost avail: nat, count: nat, allocs: nat)
    returns (r: Answer)
    requires src.Valid() && mb.Valid() && |src.input| - src.pos == avail && Ready(p, src, mb, init, avail, count, count, allocs)
    modifies src, mb, mb.data
    ensures src.Valid() && 0 < mb.data.Length && src.pos == old(src.pos) + p.n && r == AnswerOf(p)
    ensures Received(mb, init + src.input[old(src.pos)..src.pos], |init|, p)
    ensures !mb.canGrow ==> mb.data == old(mb.data)
  {
    ghost var start := src.pos;
    ghost var bytes := init;
    var n: nat, memory: nat := count, allocs;
    var nr, more := 0, true;
    while more
      invariant src.Valid() && mb.Valid() && (mb.data == old(mb.data) || (fresh(mb.data) && mb.canGrow))
      invariant n <= count && src.pos == start + (count - n) && bytes == init + src.input[start..src.pos]
      invariant |bytes| == |init| + (count - n)
      invariant if more then Ready(p, src, mb, bytes, avail, count, n, memory) && avail + start == |src.input|
                else Stopped(p, mb, bytes, count, n, nr)
      decreases more, n, memory
    {
      ghost var at := src.pos;
      nr, more, bytes := Advance(p, src, mb, bytes, avail, count, n, memory);
      Extended(init, src.input, start, at, src.pos);
      if nr >= 0 {
        n := n - nr;
      }
      if more {
        memory := memory - 1;
      }
    }
    r := Conclude(p, mb, bytes, count, n, nr);
  }

  function AnswerOf(p: Progress): Answer {
    if p.n > 0 then Bytes(p.n) else if p.failed then ReadError else NothingLeft
  }

  /** The bytes are in the buffer; the write pointer is where EndOffset says. */
  ghost predicate Received(mb: Membuf, bytes: seq<byte>, base: nat, p: Progress)
    reads mb, mb.data
  {
    |bytes| <= mb.data.Length && mb.data[..|bytes|] == bytes && mb.offset == EndOffset(base, p)
  }

  /** The end of sys_read. */
  method Conclude(ghost p: Progress, mb: Membuf, ghost bytes: seq<byte>, count: nat, n: nat, nr: int) returns (r: Answer)
    requires Stopped(p, mb, bytes, count, n, nr) && |bytes| >= p.n && (nr < 0 && p.n > 0 ==> mb.offset > 0)
    modifies mb`offset
    ensures r == AnswerOf(p) && Received(mb, bytes, |bytes| - p.n, p)
  {
    if nr <= 0 && count == n {
      r := if nr == 0 then NothingLeft else ReadError;
    } else {
      mb.offset := mb.offset + nr;
      r := Bytes(count - n);
    }
  }

  /** Where the write pointer ends up. */
  function EndOffset(base: nat, p: Progress): int {
    base + p.n + p.stuck - if p.failed && p.n > 0 then 1 else 0
  }

  /**
   The write pointer ends up behind exactly what was read if and only if no error comes after reads that
   filled the room and no allocation fails after one that did.
   */
  lemma BufferWholeIff(avail: nat, lens: seq<int>, call: nat, base: nat, room: nat, count: nat, allocs: nat)
    ensures var p := Reads(avail, lens, call, base, room, count, 0, allocs);
            EndOffset(base, p) == base + p.n
            <==> Whole(avail, lens, call, base, room, count, allocs)
  {
    ReadsEndIff(avail, lens, call, base, room, count, allocs);
  }

  /** For a buffer that cannot grow: one read that uses up the room while more is asked for. */
  lemma FixedRunsOutIff(avail: nat, lens: seq<int>, call: nat, base: nat, room: nat, count: nat)
    ensures RunsOut(avail, lens, call, base, room, count, 0)
            <==> 0 < room <= Want(lens, call) && room <= avail && room < count
    ensures !FailsLate(avail, lens, call, base, room, count, 0)
  {
    assert FullRead(avail, lens, call, base, room, count, 0) <==> FullReads(avail, lens, call, base, room, count, 1);
  }

  /** An input that fails: the write pointer ends up beyond the end of the buffer. */
  method PointerBeyondEnd(bytes: seq<byte>, len: nat) returns (mb: Membuf)
    requires 0 < len < |bytes|
    ensures mb.data.Length == len && mb.offset == 2 * len > mb.data.Length
  {
    var src := new Source(bytes, [len]);
    mb := new Membuf(len, false);
    var r, p := ReadInto(src, mb, |bytes|, 0);
    assert p == Progress(len, false, len);
  }

  /** After the last round: the write pointer stands before the last read, or behind it if no room could be made. */
  ghost predicate Stopped(p: Progress, mb: Membuf, bytes: seq<byte>, count: nat, n: nat, nr: int)
    reads mb, mb.data
  {
    && Over(p, count, n, nr) && mb.Valid() && |bytes| <= mb.data.Length && mb.data[..|bytes|] == bytes
    && mb.offset == |bytes| - (if nr < 0 then 0 else nr) + p.stuck && (p.stuck == 0 || p.stuck == nr)
  }

  /** Before a round: `bytes` are in the buffer, and the loop goes on as Reads says. */
  ghost predicate Ready(p: Progress, src: Source, mb: Membuf, bytes: seq<byte>, avail: nat, count: nat, n: nat, memory: nat)
    reads src, mb, mb.data
  {
    && Filled(mb, bytes, 0) && n <= count && |bytes| >= count - n && src.pos <= |src.input|
    && |src.input| - src.pos == avail - (count - n)
    && Going(p, avail, src.lens, src.calls, |bytes| - (count - n), mb.data.Length - mb.offset, count, n,
             if mb.canGrow then memory else 0)
  }

  /** One round of the loop. */
  method Advance(ghost p: Progress, src: Source, mb: Membuf, ghost bytes: seq<byte>, ghost avail: nat, ghost count: nat, n: nat,
                 memory: nat) returns (nr: int, more: bool, ghost bytes': seq<byte>)
    requires src.Valid() && Ready(p, src, mb, bytes, avail, count, n, memory)
    modifies src, mb, mb.data
    ensures src.Valid() && mb.Valid() && (mb.data == old(mb.data) || (fresh(mb.data) && mb.canGrow)) && -1 <= nr <= n
    ensures src.pos == old(src.pos) + (if nr < 0 then 0 else nr) && bytes' == bytes + src.input[old(src.pos)..src.pos]
    ensures more ==> 0 < memory && 0 <= nr && Ready(p, src, mb, bytes', avail, count, n - nr, memory - 1)
    ensures !more ==> Stopped(p, mb, bytes', count, if nr < 0 then n else n - nr, nr)
  {
    Round(p, avail, src.lens, src.calls, |bytes| - (count - n), mb.data.Length - mb.offset, count, n,
          if mb.canGrow then memory else 0);
    var size := mb.data.Length - mb.offset;
    var rlen := if n <= size then n else size;
    nr, bytes' := ReadRoom(src, mb, bytes, rlen);
    more := nr >= 0 && n != nr && nr == rlen;
    if more {
      more := NextRoom(mb, bytes', memory > 0);
    }
  }

  /** A read of `rlen` bytes into the room behind the write pointer. */
  method ReadRoom(src: Source, mb: Membuf, ghost bytes: seq<byte>, rlen: nat) returns (nr: int, ghost bytes': seq<byte>)
    requires src.Valid() && Filled(mb, bytes, 0) && rlen <= mb.data.Length - mb.offset
    modifies src, mb.data
    ensures nr == ReadLen(src.lens, old(src.calls), rlen, |src.input| - old(src.pos)) && src.calls == old(src.calls) + 1
    ensures src.Valid() && src.pos == old(src.pos) + if nr < 0 then 0 else nr
    ensures bytes' == bytes + src.input[old(src.pos)..src.pos] && Filled(mb, bytes', if nr < 0 then 0 else nr)
  {
    var chunk: seq<byte>;
    nr, chunk := src.Read(rlen);
    bytes' := bytes + chunk;
    if nr >= 0 {
      mb.Copy(mb.offset, chunk);
    } else {
      assert bytes' == bytes;
    }
  }
}
