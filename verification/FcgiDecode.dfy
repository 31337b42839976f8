/**
 fcgi_decode of src/isa/fcgi/sys_fcgi.c on values: complete records change the table of requests, what is
 left over waits for the next call, and how the input is cut into pieces does not matter.
 */
module FcgiDecode {
  import opened Bytes
  import opened FcgiRecord

  const RESPONDER := 1

  type Key = seq<byte>

  // The field names, in ASCII.
  const KEY_ID: Key := [105, 100]
  const KEY_CHANNEL: Key := [99, 104, 97, 110, 110, 101, 108]
  const KEY_KEEP_CONN: Key := [107, 101, 101, 112, 95, 99, 111, 110, 110]
  const KEY_STDIN: Key := [115, 116, 100, 105, 110]
  const KEY_ERROR: Key := [101, 114, 114, 111, 114]
  const KEY_NEXT_READY: Key := [110, 101, 120, 116, 95, 114, 101, 97, 100, 121]

  datatype Error = BadContent | BadRole | BadVersion | BadType

  /** A value in a request's table; parameters share the table with the fields of the decoder. */
  datatype Field = Str(s: seq<byte>) | Flag(b: bool) | Num(n: nat) | Message(e: Error) | Channel

  type Request = map<Key, Field>
  type Requests = map<nat, Request>

  // ---------------------------------------------------------------- contents

  function DecodeBegin(req: Request, c: seq<byte>): (r: (Request, Option<Error>)) {
    if |c| != 8 then (req, Some(BadContent))
    else if Be16(c[0], c[1]) != RESPONDER then (req, Some(BadRole))
    else (req[KEY_KEEP_CONN := Flag(Odd(c[2]))], None)
  }

  /** The bit FCGI_KEEP_CONN. */
  predicate Odd(b: byte) { b % 2 == 1 }

  /** The length of a name or a value: one byte, or four with the highest bit set and something after them. */
  function Length(c: seq<byte>): (r: Option<(nat, nat)>)
    requires c != []
    ensures r.Some? ==> 1 <= r.value.1 <= 4 && r.value.1 <= |c|
  {
    if c[0] < 128 then Some((c[0] as int, 1))
    else if |c| <= 4 then None
    else Some((0x1_0000 * Be16((c[0] - 128) as byte, c[1]) + Be16(c[2], c[3]), 4))
  }

  /** A name-value pair: where its name and its value start and end. */
  datatype Span = Span(name: nat, value: nat, end: nat)

  function FirstPair(c: seq<byte>): (r: Option<Span>)
    requires c != []
    ensures r.Some? ==> 0 < r.value.name <= r.value.value <= r.value.end <= |c|
  {
    match Length(c)
    case None => None
    case Some((n, i)) =>
      if i >= |c| then None
      else
        match Length(c[i..])
        case None => None
        case Some((m, j)) => if i + j + n + m > |c| then None else Some(Span(i + j, i + j + n, i + j + n + m))
  }

  function DecodeParams(req: Request, c: seq<byte>): (r: (Request, Option<Error>))
    decreases |c|
  {
    if c == [] then (req, None)
    else
      match FirstPair(c)
      case None => (req, Some(BadContent))
      case Some(p) => DecodeParams(req[c[p.name..p.value] := Str(c[p.value..p.end])], c[p.end..])
  }

  function DecodeStdin(req: Request, c: seq<byte>): Request {
    if KEY_STDIN !in req then req[KEY_STDIN := Str(c)]
    else
      match req[KEY_STDIN]
      case Str(s) => req[KEY_STDIN := Str(s + c)]
      case _ => req   // never stored there
  }

  // ---------------------------------------------------------------- a record

  function Newcomer(id: nat): Request {
    map[KEY_ID := Num(id), KEY_CHANNEL := Channel]
  }

  /** The content of a record goes into its request; the error, and whether the request is complete. */
  function DecodeContent(req: Request, r: Record): (x: (Request, Option<Error>, bool)) {
    if r.version != VERSION then (req, Some(BadVersion), true)
    else if r.kind == BEGIN_REQUEST then var (q, e) := DecodeBegin(req, r.content); (q, e, e.Some?)
    else if r.kind == ABORT_REQUEST then (req, None, false)
    else if r.kind == PARAMS then var (q, e) := DecodeParams(req, r.content); (q, e, e.Some?)
    else if r.kind == STDIN then
      if r.content != [] then (DecodeStdin(req, r.content), None, false) else (req, None, true)
    else (req, Some(BadType), true)
  }

  function SetReady(req: Request, last: Option<nat>): Request {
    match last
    case None => req - {KEY_NEXT_READY}
    case Some(id) => req[KEY_NEXT_READY := Num(id)]
  }

  /** fcgi_decode_record on a complete record; `ready` is the request that became ready last. */
  function DecodeRecord(reqs: Requests, ready: Option<nat>, r: Record): (x: (Requests, Option<nat>)) {
    var req := if r.id in reqs then reqs[r.id] else Newcomer(r.id);
    var (q, e, done) := DecodeContent(req, r);
    var q1 := if e.Some? then q[KEY_ERROR := Message(e.value)] else q;
    if done then (reqs[r.id := SetReady(q1, ready)], Some(r.id)) else (reqs[r.id := q1], ready)
  }

  /** The loop of fcgi_decode: the requests, the last one ready, and the bytes left over. */
  function Decode(reqs: Requests, ready: Option<nat>, d: seq<byte>): (x: (Requests, Option<nat>, seq<byte>))
    ensures Front(x.2).None?
    decreases |d|
  {
    match Front(d)
    case None => (reqs, ready, d)
    case Some(r) =>
      var (reqs1, ready1) := DecodeRecord(reqs, ready, r);
      Decode(reqs1, ready1, d[RecordLen(d)..])
  }

  // ---------------------------------------------------------------- input in pieces

  /** Decoding more bytes goes on where decoding the first ones has stopped. */
  lemma {:induction false} DecodeGoesOn(reqs: Requests, ready: Option<nat>, d: seq<byte>, more: seq<byte>)
    ensures var (reqs1, ready1, tail) := Decode(reqs, ready, d);
            Decode(reqs, ready, d + more) == Decode(reqs1, ready1, tail + more)
    decreases |d|
  {
    if Front(d).Some? {
      FrontStays(d, more);
      var (reqs1, ready1) := DecodeRecord(reqs, ready, Front(d).value);
      DecodeGoesOn(reqs1, ready1, d[RecordLen(d)..], more);
    }
  }

  /** The requests without the chain of the ready ones, which starts anew with every call. */
  function Lasting(req: Request): Request { req - {KEY_NEXT_READY} }

  ghost predicate Alike(a: Requests, b: Requests) {
    a.Keys == b.Keys && forall id :: id in a ==> Lasting(a[id]) == Lasting(b[id])
  }

  lemma LastingSame(a: Request, b: Request, k: Key)
    requires Lasting(a) == Lasting(b) && k != KEY_NEXT_READY
    ensures (k in a <==> k in b) && (k in a ==> a[k] == b[k])
  {
    assert k in a ==> k in Lasting(a) && Lasting(a)[k] == a[k];
    assert k in b ==> k in Lasting(b) && Lasting(b)[k] == b[k];
  }

  lemma LastingSet(a: Request, b: Request, k: Key, v: Field)
    requires Lasting(a) == Lasting(b)
    ensures Lasting(a[k := v]) == Lasting(b[k := v])
  {
    LastingOf(a, k, v);
    LastingOf(b, k, v);
  }

  lemma LastingOf(a: Request, k: Key, v: Field)
    ensures Lasting(a[k := v]) == if k == KEY_NEXT_READY then Lasting(a) else Lasting(a)[k := v]
  {
  }

  lemma LastingReady(a: Request, last: Option<nat>)
    ensures Lasting(SetReady(a, last)) == Lasting(a)
  {
  }

  lemma {:induction false} ParamsAlike(a: Request, b: Request, c: seq<byte>)
    requires Lasting(a) == Lasting(b)
    ensures Lasting(DecodeParams(a, c).0) == Lasting(DecodeParams(b, c).0)
    ensures DecodeParams(a, c).1 == DecodeParams(b, c).1
    decreases |c|
  {
    if c != [] && FirstPair(c).Some? {
      var p := FirstPair(c).value;
      LastingSet(a, b, c[p.name..p.value], Str(c[p.value..p.end]));
      ParamsAlike(a[c[p.name..p.value] := Str(c[p.value..p.end])], b[c[p.name..p.value] := Str(c[p.value..p.end])], c[p.end..]);
    }
  }

  lemma StdinAlike(a: Request, b: Request, c: seq<byte>)
    requires Lasting(a) == Lasting(b)
    ensures Lasting(DecodeStdin(a, c)) == Lasting(DecodeStdin(b, c))
  {
    assert KEY_STDIN != KEY_NEXT_READY by { assert |KEY_STDIN| != |KEY_NEXT_READY|; }
    LastingSame(a, b, KEY_STDIN);
    if KEY_STDIN !in a {
      LastingSet(a, b, KEY_STDIN, Str(c));
    } else if a[KEY_STDIN].Str? {
      LastingSet(a, b, KEY_STDIN, Str(a[KEY_STDIN].s + c));
    }
  }

  lemma BeginAlike(a: Request, b: Request, c: seq<byte>)
    requires Lasting(a) == Lasting(b)
    ensures Lasting(DecodeBegin(a, c).0) == Lasting(DecodeBegin(b, c).0) && DecodeBegin(a, c).1 == DecodeBegin(b, c).1
  {
    if |c| == 8 {
      LastingSet(a, b, KEY_KEEP_CONN, Flag(Odd(c[2])));
    }
  }

  /** Requests alike, with the same error and as complete. */
  ghost predicate SameContent(x: (Request, Option<Error>, bool), y: (Request, Option<Error>, bool)) {
    Lasting(x.0) == Lasting(y.0) && x.1 == y.1 && x.2 == y.2
  }

  lemma ContentAlike(a: Request, b: Request, r: Record)
    requires Lasting(a) == Lasting(b)
    ensures SameContent(DecodeContent(a, r), DecodeContent(b, r))
  {
    if r.version == VERSION {
      if r.kind == BEGIN_REQUEST {
        BeginAlike(a, b, r.content);
      } else if r.kind == PARAMS {
        ParamsAlike(a, b, r.content);
      } else if r.kind == STDIN {
        StdinAlike(a, b, r.content);
      }
    }
  }

  lemma RecordAlike(a: Requests, b: Requests, x: Option<nat>, y: Option<nat>, r: Record)
    requires Alike(a, b)
    ensures Alike(DecodeRecord(a, x, r).0, DecodeRecord(b, y, r).0)
  {
    var p := if r.id in a then a[r.id] else Newcomer(r.id);
    var q := if r.id in b then b[r.id] else Newcomer(r.id);
    ContentAlike(p, q, r);
    ErrorAlike(DecodeContent(p, r).0, DecodeContent(q, r).0, DecodeContent(p, r).1, x, y);
  }

  /** An error, and the link to the request that became ready before. */
  lemma ErrorAlike(p: Request, q: Request, e: Option<Error>, x: Option<nat>, y: Option<nat>)
    requires Lasting(p) == Lasting(q)
    ensures var p', q' := if e.Some? then p[KEY_ERROR := Message(e.value)] else p,
                          if e.Some? then q[KEY_ERROR := Message(e.value)] else q;
            Lasting(p') == Lasting(q') && Lasting(SetReady(p', x)) == Lasting(p') && Lasting(SetReady(q', y)) == Lasting(q')
  {
    var p', q' := p, q;
    if e.Some? {
      LastingSet(p, q, KEY_ERROR, Message(e.value));
      p', q' := p[KEY_ERROR := Message(e.value)], q[KEY_ERROR := Message(e.value)];
    }
    LastingReady(p', x);
    LastingReady(q', y);
  }

  lemma {:induction false} DecodeAlike(a: Requests, b: Requests, x: Option<nat>, y: Option<nat>, d: seq<byte>)
    requires Alike(a, b)
    ensures Alike(Decode(a, x, d).0, Decode(b, y, d).0) && Decode(a, x, d).2 == Decode(b, y, d).2
    decreases |d|
  {
    if Front(d).Some? {
      var r := Front(d).value;
      RecordAlike(a, b, x, y, r);
      var (a1, x1) := DecodeRecord(a, x, r);
      var (b1, y1) := DecodeRecord(b, y, r);
      DecodeAlike(a1, b1, x1, y1, d[RecordLen(d)..]);
    }
  }

  /** One call after another on the same buffer: each chunk is put behind what the call before has left. */
  function Feed(reqs: Requests, tail: seq<byte>, chunks: seq<seq<byte>>): (x: (Requests, seq<byte>))
    decreases |chunks|
  {
    if chunks == [] then (reqs, tail)
    else
      var (reqs1, _, tail1) := Decode(reqs, None, tail + chunks[0]);
      Feed(reqs1, tail1, chunks[1..])
  }

  lemma AlikeTransitive(a: Requests, b: Requests, c: Requests)
    requires Alike(a, b) && Alike(b, c)
    ensures Alike(a, c)
  {
  }

  /** However the input is split, the requests and the unconsumed tail are those of one call on all of it. */
  lemma {:induction false} SplitDoesNotMatter(reqs: Requests, tail: seq<byte>, chunks: seq<seq<byte>>)
    requires Front(tail).None?
    ensures var (one, _, rest) := Decode(reqs, None, tail + Flat(chunks));
            var (all, left) := Feed(reqs, tail, chunks);
            Alike(all, one) && left == rest
    decreases |chunks|
  {
    if chunks == [] {
      assert tail + Flat(chunks) == tail;
    } else {
      var (reqs1, _, tail1) := Decode(reqs, None, tail + chunks[0]);
      SplitDoesNotMatter(reqs1, tail1, chunks[1..]);
      FirstChunk(reqs, tail, chunks[0], Flat(chunks[1..]));
      FlatFirst(tail, chunks);
      AlikeTransitive(Feed(reqs, tail, chunks).0, Decode(reqs1, None, tail1 + Flat(chunks[1..])).0,
                      Decode(reqs, None, tail + Flat(chunks)).0);
    }
  }

  lemma FlatFirst(tail: seq<byte>, chunks: seq<seq<byte>>)
    requires chunks != []
    ensures tail + Flat(chunks) == tail + chunks[0] + Flat(chunks[1..])
  {
  }

  /** A call on the first chunk and a call on the rest do what one call does. */
  lemma FirstChunk(reqs: Requests, tail: seq<byte>, c: seq<byte>, more: seq<byte>)
    ensures var (reqs1, _, tail1) := Decode(reqs, None, tail + c);
            var (two, _, left) := Decode(reqs1, None, tail1 + more);
            var (one, _, rest) := Decode(reqs, None, tail + c + more);
            Alike(two, one) && left == rest
  {
    var (reqs1, ready1, tail1) := Decode(reqs, None, tail + c);
    DecodeGoesOn(reqs, None, tail + c, more);
    DecodeAlike(reqs1, reqs1, None, ready1, tail1 + more);
  }
}
