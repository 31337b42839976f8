/**
 The chain of ready requests: fcgi_decode returns the request completed last, and `next_ready` of each leads
 to the one completed before it.
 */
module FcgiReady {
  import opened Bytes
  import opened FcgiRecord
  import opened FcgiDecode
  import opened FcgiRequest

  // ---------------------------------------------------------------- which records complete a request

  /** A length: one byte below 128, or four with the highest bit set. */
  predicate LengthField(d: seq<byte>, n: nat) {
    || (|d| == 1 && d[0] < 128 && n == d[0] as int)
    || (|d| == 4 && d[0] >= 128
        && n == 0x100_0000 * (d[0] as int - 128) + 0x1_0000 * d[1] as int + 0x100 * d[2] as int + d[3] as int)
  }

  /** A name of `n` and a value of `v` bytes behind their lengths; something has to follow lengths of four bytes. */
  predicate PairAt(c: seq<byte>, a: nat, b: nat, n: nat, v: nat) {
    a + b + n + v <= |c| && LengthField(c[..a], n) && LengthField(c[a..a + b], v) && (b == 4 ==> |c| > a + b)
  }

  lemma LengthMeans(c: seq<byte>)
    requires c != []
    ensures match Length(c)
            case Some((n, i)) => i <= |c| && LengthField(c[..i], n) && (i == 4 ==> |c| > 4)
            case None => c[0] >= 128 && |c| <= 4
    ensures forall n: nat, i: nat :: i <= |c| && LengthField(c[..i], n) && (i == 4 ==> |c| > 4) ==> Length(c) == Some((n, i))
  {
    forall n: nat, i: nat | i <= |c| && LengthField(c[..i], n) && (i == 4 ==> |c| > 4)
      ensures Length(c) == Some((n, i))
    {
      assert c[..i][0] == c[0];
    }
  }

  /** A pair is read exactly where one stands. */
  lemma PairIff(c: seq<byte>, a: nat, b: nat, n: nat, v: nat)
    requires c != []
    ensures PairAt(c, a, b, n, v) ==> FirstPair(c) == Some(Span(a + b, a + b + n, a + b + n + v))
    ensures FirstPair(c).Some? ==> exists a, b, n, v :: PairAt(c, a, b, n, v)
  {
    if FirstPair(c).Some? { PairStands(c); }
    if PairAt(c, a, b, n, v) {
      LengthMeans(c);
      assert Length(c) == Some((n, a));
      LengthMeans(c[a..]);
      assert c[a..][..b] == c[a..a + b];
      assert Length(c[a..]) == Some((v, b));
    }
  }

  lemma PairStands(c: seq<byte>)
    requires c != [] && FirstPair(c).Some?
    ensures exists a, b, n, v :: PairAt(c, a, b, n, v)
  {
    LengthMeans(c);
    var (n, a) := Length(c).value;
    LengthMeans(c[a..]);
    var (v, b) := Length(c[a..]).value;
    assert c[a..][..b] == c[a..a + b];
    assert PairAt(c, a, b, n, v);
  }

  /** No list of name-value pairs: something is cut off. */
  predicate Malformed(c: seq<byte>)
    decreases |c|
  {
    c != [] && (FirstPair(c).None? || Malformed(c[FirstPair(c).value.end..]))
  }

  /** Among the pairs, up to one that is cut off, one is named like the link of the chain. */
  predicate NamesLink(c: seq<byte>)
    decreases |c|
  {
    c != [] && FirstPair(c).Some?
    && var p := FirstPair(c).value; c[p.name..p.value] == KEY_NEXT_READY || NamesLink(c[p.end..])
  }

  /** What is wrong with a record, if anything. */
  function Fault(r: Record): Option<Error> {
    if r.version != VERSION then Some(BadVersion)
    else if r.kind == BEGIN_REQUEST then
      if |r.content| != 8 then Some(BadContent)
      else if (r.content[0] as int, r.content[1] as int) != (0, 1) then Some(BadRole) else None
    else if r.kind == PARAMS then if Malformed(r.content) then Some(BadContent) else None
    else if r.kind == STDIN || r.kind == ABORT_REQUEST then None
    else Some(BadType)
  }

  /** A record completes its request if something is wrong with it, or it ends the body. */
  predicate Completing(r: Record) { Fault(r).Some? || (r.kind == STDIN && r.content == []) }

  function LinkOf(req: Request): Option<Field> {
    if KEY_NEXT_READY in req then Some(req[KEY_NEXT_READY]) else None
  }

  function NextReady(reqs: Requests, id: nat): Option<Field> {
    if id in reqs then LinkOf(reqs[id]) else None
  }

  lemma LinkIsOther()
    ensures KEY_NEXT_READY != KEY_ID && KEY_NEXT_READY != KEY_CHANNEL && KEY_NEXT_READY != KEY_KEEP_CONN
    ensures KEY_NEXT_READY != KEY_STDIN && KEY_NEXT_READY != KEY_ERROR
  {
    assert |KEY_NEXT_READY| == 10 && |KEY_ID| == 2 && |KEY_CHANNEL| == 7 && |KEY_KEEP_CONN| == 9 && |KEY_STDIN| == 5
           && |KEY_ERROR| == 5;
  }

  lemma {:induction false} ParamsLink(req: Request, c: seq<byte>)
    ensures DecodeParams(req, c).1 == if Malformed(c) then Some(BadContent) else None
    ensures if NamesLink(c) then LinkOf(DecodeParams(req, c).0).Some? && LinkOf(DecodeParams(req, c).0).value.Str?
            else LinkOf(DecodeParams(req, c).0) == LinkOf(req)
    decreases |c|
  {
    if c != [] && FirstPair(c).Some? {
      var p := FirstPair(c).value;
      var req1 := req[c[p.name..p.value] := Str(c[p.value..p.end])];
      ParamsLink(req1, c[p.end..]);
      if c[p.name..p.value] == KEY_NEXT_READY && !NamesLink(c[p.end..]) {
        assert LinkOf(req1).value.Str?;
      }
    }
  }

  /** The parameters of a record name the link. */
  predicate Names(r: Record) { r.version == VERSION && r.kind == PARAMS && NamesLink(r.content) }

  lemma ContentLink(req: Request, r: Record)
    ensures var (q, e, done) := DecodeContent(req, r);
            && e == Fault(r) && done == Completing(r)
            && if Names(r) then LinkOf(q).Some? && LinkOf(q).value.Str? else LinkOf(q) == LinkOf(req)
  {
    LinkIsOther();
    if r.version == VERSION && r.kind == PARAMS { ParamsLink(req, r.content); }
  }

  /** What a record does to the links: that of a request completed leads to the one completed before. */
  lemma RecordLinks(reqs: Requests, ready: Option<nat>, r: Record, x: nat)
    ensures var (reqs', ready') := DecodeRecord(reqs, ready, r);
            && ready' == (if Completing(r) then Some(r.id) else ready)
            && if x != r.id then NextReady(reqs', x) == NextReady(reqs, x)
               else if Completing(r) then
                 NextReady(reqs', x) == match ready case None => None case Some(id) => Some(Num(id))
               else if Names(r) then NextReady(reqs', x).Some? && NextReady(reqs', x).value.Str?
               else NextReady(reqs', x) == NextReady(reqs, x)
  {
    LinkIsOther();
    ContentLink(if r.id in reqs then reqs[r.id] else Newcomer(r.id), r);
  }

  predicate SameField(a: Request, b: Request, k: Key) {
    (k in a <==> k in b) && (k in a ==> b[k] == a[k])
  }

  lemma SetReadyKeeps(req: Request, last: Option<nat>, k: Key)
    requires k != KEY_NEXT_READY
    ensures SameField(req, SetReady(req, last), k)
  {
  }

  /** What a record without a fault stores, parameters aside: the connection flag, or more of the body. */
  predicate Stores(req: Request, q: Request, r: Record) {
    Fault(r).None? && r.kind != PARAMS ==>
      && (r.kind == BEGIN_REQUEST ==> KEY_KEEP_CONN in q && q[KEY_KEEP_CONN] == Flag(r.content[2] % 2 == 1))
      && (r.kind == STDIN ==> Before(q) == Before(req) + r.content)
      && SameField(req, q, KEY_ERROR) && SameField(req, q, KEY_ID) && SameField(req, q, KEY_CHANNEL)
  }

  lemma ContentStores(req: Request, r: Record)
    requires TakesBody(req)
    ensures Stores(req, DecodeContent(req, r).0, r) && TakesBody(DecodeContent(req, r).0)
  {
    KeysDiffer();
    ContentTakesBody(req, r);
  }

  lemma ReadyStores(req: Request, q: Request, r: Record, last: Option<nat>)
    requires Stores(req, q, r) && TakesBody(q)
    ensures Stores(req, SetReady(q, last), r) && TakesBody(SetReady(q, last))
  {
    LinkIsOther();
    SetReadyKeeps(q, last, KEY_ERROR);
    SetReadyKeeps(q, last, KEY_KEEP_CONN);
    SetReadyKeeps(q, last, KEY_STDIN);
    SetReadyKeeps(q, last, KEY_ID);
    SetReadyKeeps(q, last, KEY_CHANNEL);
  }

  /** A record changes its own request only, and stores in it what it says or what is wrong with it. */
  lemma RecordStores(reqs: Requests, ready: Option<nat>, r: Record)
    requires r.id in reqs ==> TakesBody(reqs[r.id])
    ensures var reqs' := DecodeRecord(reqs, ready, r).0;
            var req := if r.id in reqs then reqs[r.id] else Newcomer(r.id);
            && reqs'.Keys == reqs.Keys + {r.id} && (forall x :: x in reqs && x != r.id ==> reqs'[x] == reqs[x])
            && TakesBody(reqs'[r.id]) && Stores(req, reqs'[r.id], r)
            && (Fault(r).Some? ==> KEY_ERROR in reqs'[r.id] && reqs'[r.id][KEY_ERROR] == Message(Fault(r).value))
            && (r.id !in reqs ==> KEY_ID in req && req[KEY_ID] == Num(r.id) && KEY_ERROR !in req && Before(req) == [])
  {
    LinkIsOther();
    KeysDiffer();
    var req := if r.id in reqs then reqs[r.id] else Newcomer(r.id);
    ContentLink(req, r);
    ContentStores(req, r);
    var q := DecodeContent(req, r).0;
    if Fault(r).Some? {
      var q1 := q[KEY_ERROR := Message(Fault(r).value)];
      SetReadyKeeps(q1, ready, KEY_ERROR);
      ReadyStores(req, q1, r, ready);
    } else {
      ReadyStores(req, q, r, ready);
    }
  }

  lemma KeysDiffer()
    ensures KEY_STDIN != KEY_ERROR && KEY_STDIN != KEY_KEEP_CONN && KEY_ERROR != KEY_KEEP_CONN
    ensures KEY_STDIN != KEY_ID && KEY_STDIN != KEY_CHANNEL && KEY_ID != KEY_CHANNEL
    ensures KEY_ID != KEY_ERROR && KEY_ID != KEY_KEEP_CONN && KEY_CHANNEL != KEY_ERROR && KEY_CHANNEL != KEY_KEEP_CONN
  {
    assert KEY_STDIN[0] == 115 && KEY_ERROR[0] == 101;
    assert |KEY_STDIN| == 5 && |KEY_ERROR| == 5 && |KEY_KEEP_CONN| == 9 && |KEY_ID| == 2 && |KEY_CHANNEL| == 7;
  }

  lemma {:induction false} ParamsTakeBody(req: Request, c: seq<byte>)
    requires TakesBody(req)
    ensures TakesBody(DecodeParams(req, c).0)
    decreases |c|
  {
    if c != [] && FirstPair(c).Some? {
      var p := FirstPair(c).value;
      ParamsTakeBody(req[c[p.name..p.value] := Str(c[p.value..p.end])], c[p.end..]);
    }
  }

  lemma ContentTakesBody(req: Request, r: Record)
    requires TakesBody(req)
    ensures TakesBody(DecodeContent(req, r).0)
    ensures r.version == VERSION && r.kind == STDIN ==> Before(DecodeContent(req, r).0) == Before(req) + r.content
  {
    KeysDiffer();
    assert Before(req) + [] == Before(req) && [] + r.content == r.content;
    if r.kind == PARAMS { ParamsTakeBody(req, r.content); }
  }

  // ---------------------------------------------------------------- the chain

  /** The requests completed by the records, in this order. */
  function Completed(rs: seq<Record>): seq<nat> {
    if rs == [] then []
    else
      var last := rs[|rs| - 1];
      Completed(rs[..|rs| - 1]) + if Completing(last) then [last.id] else []
  }

  /** A parameter with the name of the link comes for a request completed already. */
  predicate Meddled(rs: seq<Record>) {
    rs != [] &&
    var init, last := rs[..|rs| - 1], rs[|rs| - 1];
    Meddled(init) || (Names(last) && !Completing(last) && last.id in Completed(init))
  }

  ghost predicate Different(ids: seq<nat>) {
    forall i, j :: 0 <= i < j < |ids| ==> ids[i] != ids[j]
  }

  function Preceding(ids: seq<nat>, i: nat): Option<Field>
    requires i < |ids|
  {
    if i > 0 then Some(Num(ids[i - 1])) else None
  }

  /** From the last request on, the links lead through all of them, back to the first, which has no link. */
  ghost predicate Chained(reqs: Requests, ready: Option<nat>, ids: seq<nat>) {
    && ready == (if ids == [] then None else Some(ids[|ids| - 1]))
    && forall i {:trigger Preceding(ids, i)} :: 0 <= i < |ids| ==> NextReady(reqs, ids[i]) == Preceding(ids, i)
  }

  /** No later one is the same request. */
  ghost predicate IsLast(ids: seq<nat>, i: nat) {
    i < |ids| && forall j :: i < j < |ids| ==> ids[j] != ids[i]
  }

  ghost predicate LinkedBack(reqs: Requests, ids: seq<nat>) {
    forall i: nat {:trigger IsLast(ids, i)} :: IsLast(ids, i) ==> NextReady(reqs, ids[i]) == Preceding(ids, i)
  }

  /** The id returned is that of the request completed last, or none if none was completed. */
  lemma {:induction false} ReadyIsLast(reqs: Requests, rs: seq<Record>)
    ensures DecodeAll(reqs, None, rs).1 == if Completed(rs) == [] then None else Some(Completed(rs)[|Completed(rs)| - 1])
    decreases |rs|
  {
    if rs != [] {
      var init, last := rs[..|rs| - 1], rs[|rs| - 1];
      ReadyIsLast(reqs, init);
      RecordLinks(DecodeAll(reqs, None, init).0, DecodeAll(reqs, None, init).1, last, last.id);
    }
  }

  /** Each request leads to the one completed before its own last completion. */
  lemma {:induction false} LinksBack(reqs: Requests, rs: seq<Record>)
    requires !Meddled(rs)
    ensures LinkedBack(DecodeAll(reqs, None, rs).0, Completed(rs))
    decreases |rs|
  {
    if rs != [] {
      var init, last := rs[..|rs| - 1], rs[|rs| - 1];
      LinksBack(reqs, init);
      ReadyIsLast(reqs, init);
      LinksOn(DecodeAll(reqs, None, init).0, DecodeAll(reqs, None, init).1, Completed(init), last);
    }
  }

  lemma LinksOn(reqs: Requests, ready: Option<nat>, ids: seq<nat>, r: Record)
    requires LinkedBack(reqs, ids) && ready == (if ids == [] then None else Some(ids[|ids| - 1]))
    requires Names(r) && !Completing(r) ==> r.id !in ids
    ensures LinkedBack(DecodeRecord(reqs, ready, r).0, ids + if Completing(r) then [r.id] else [])
  {
    var reqs', ids' := DecodeRecord(reqs, ready, r).0, ids + if Completing(r) then [r.id] else [];
    forall i: nat | IsLast(ids', i)
      ensures NextReady(reqs', ids'[i]) == Preceding(ids', i)
    {
      RecordLinks(reqs, ready, r, ids'[i]);
      if i < |ids| {
        assert ids'[i] == ids[i];
        assert forall j :: i < j < |ids| ==> ids'[j] == ids[j];
        assert IsLast(ids, i);
        if Completing(r) { assert ids'[|ids|] == r.id; }
      }
    }
  }

  /** A link overwritten stays so, unless its request completes once more. */
  lemma {:induction false} MeddledLink(reqs: Requests, rs: seq<Record>) returns (x: nat)
    requires Meddled(rs) && Different(Completed(rs))
    ensures x in Completed(rs)
    ensures NextReady(DecodeAll(reqs, None, rs).0, x).Some? && NextReady(DecodeAll(reqs, None, rs).0, x).value.Str?
    decreases |rs|
  {
    var init, last := rs[..|rs| - 1], rs[|rs| - 1];
    var c := Completed(init);
    assert Completed(rs)[..|c|] == c;
    if Meddled(init) {
      x := MeddledLink(reqs, init);
      var i :| 0 <= i < |c| && c[i] == x;
      assert Completed(rs)[i] == x;
      if Completing(last) { assert Completed(rs)[|c|] == last.id; }
    } else {
      x := last.id;
    }
    RecordLinks(DecodeAll(reqs, None, init).0, DecodeAll(reqs, None, init).1, last, x);
  }

  lemma PrecedingSame(ids: seq<nat>, i: nat, j: nat)
    requires i < j < |ids| && Preceding(ids, i) == Preceding(ids, j)
    ensures i > 0 && ids[i - 1] == ids[j - 1]
  {
  }

  /** A chain has no request twice. */
  lemma {:induction false} ChainDiffers(reqs: Requests, ready: Option<nat>, ids: seq<nat>, i: nat, j: nat)
    requires Chained(reqs, ready, ids) && i < j < |ids|
    ensures ids[i] != ids[j]
    decreases i
  {
    if ids[i] == ids[j] {
      assert NextReady(reqs, ids[i]) == Preceding(ids, i) && NextReady(reqs, ids[j]) == Preceding(ids, j);
      PrecedingSame(ids, i, j);
      ChainDiffers(reqs, ready, ids, i - 1, j - 1);
    }
  }

  lemma StringIsNoLink(reqs: Requests, ready: Option<nat>, ids: seq<nat>, x: nat)
    requires x in ids && NextReady(reqs, x).Some? && NextReady(reqs, x).value.Str?
    ensures !Chained(reqs, ready, ids)
  {
    var i: nat :| i < |ids| && ids[i] == x;
    assert NextReady(reqs, ids[i]) != Preceding(ids, i);
  }

  lemma ChainedMeans(reqs: Requests, rs: seq<Record>, ready: Option<nat>)
    requires Chained(DecodeAll(reqs, None, rs).0, ready, Completed(rs))
    ensures Different(Completed(rs)) && !Meddled(rs)
  {
    var reqs', ids := DecodeAll(reqs, None, rs).0, Completed(rs);
    forall i, j | 0 <= i < j < |ids|
      ensures ids[i] != ids[j]
    {
      ChainDiffers(reqs', ready, ids, i, j);
    }
    if Meddled(rs) {
      var x := MeddledLink(reqs, rs);
      StringIsNoLink(reqs', ready, ids, x);
    }
  }

  /**
   The links lead from the id returned through exactly the requests completed, the latest first, if and only
   if no request has been completed twice and none has got a parameter with the name of the link afterwards.
   */
  lemma ReadyChainIff(reqs: Requests, rs: seq<Record>)
    ensures var (reqs', ready) := DecodeAll(reqs, None, rs);
            Chained(reqs', ready, Completed(rs)) <==> Different(Completed(rs)) && !Meddled(rs)
  {
    var (reqs', ready) := DecodeAll(reqs, None, rs);
    var ids := Completed(rs);
    ReadyIsLast(reqs, rs);
    if Different(ids) && !Meddled(rs) {
      LinksBack(reqs, rs);
      forall i: nat | i < |ids|
        ensures NextReady(reqs', ids[i]) == Preceding(ids, i)
      {
        assert IsLast(ids, i);
      }
    } else if Chained(reqs', ready, ids) {
      ChainedMeans(reqs, rs, ready);
    }
  }

  /** The complete records the bytes start with. */
  function Records(d: seq<byte>): seq<Record>
    decreases |d|
  {
    match Front(d)
    case None => []
    case Some(r) => [r] + Records(d[RecordLen(d)..])
  }

  lemma {:induction false} DecodeIsAll(reqs: Requests, ready: Option<nat>, d: seq<byte>)
    ensures Decode(reqs, ready, d).0 == DecodeAll(reqs, ready, Records(d)).0
    ensures Decode(reqs, ready, d).1 == DecodeAll(reqs, ready, Records(d)).1
    decreases |d|
  {
    if Front(d).Some? {
      var r, rest := Front(d).value, d[RecordLen(d)..];
      var (reqs1, ready1) := DecodeRecord(reqs, ready, r);
      DecodeIsAll(reqs1, ready1, rest);
      assert [r][..0] == [];
      assert DecodeAll(reqs, ready, [r]) == (reqs1, ready1);
      DecodeAllGoesOn(reqs, ready, [r], Records(rest));
    }
  }

  /**
   One call of fcgi_decode: it returns no id if and only if it has completed no request, and the links lead
   from the id returned through exactly the requests it has completed if and only if it has completed none
   of them twice and none has got a parameter with the name of the link afterwards.
   */
  lemma ReadyChain(reqs: Requests, d: seq<byte>)
    ensures var (reqs', ready, tail) := Decode(reqs, None, d);
            var ids := Completed(Records(d));
            && (ready == None <==> ids == [])
            && (Chained(reqs', ready, ids) <==> Different(ids) && !Meddled(Records(d)))
  {
    DecodeIsAll(reqs, None, d);
    ReadyIsLast(reqs, Records(d));
    ReadyChainIff(reqs, Records(d));
  }

  // ---------------------------------------------------------------- a request completed twice

  /** The request that `n` links lead to from `id`. */
  function Follow(reqs: Requests, id: nat, n: nat): Option<nat>
    decreases n
  {
    if n == 0 then Some(id)
    else
      match NextReady(reqs, id)
      case Some(Num(next)) => Follow(reqs, next, n - 1)
      case _ => None
  }

  /** The last place but those of requests completed once only. */
  lemma {:induction false} LastRepeated(ids: seq<nat>, n: nat) returns (j: nat)
    requires n <= |ids| && (forall i :: n <= i < |ids| ==> IsLast(ids, i)) && exists i :: 0 <= i < n && !IsLast(ids, i)
    ensures j < n && !IsLast(ids, j) && forall i :: j < i < |ids| ==> IsLast(ids, i)
    decreases n
  {
    if IsLast(ids, n - 1) {
      j := LastRepeated(ids, n - 1);
    } else {
      j := n - 1;
    }
  }

  lemma {:induction false} LastOf(ids: seq<nat>, j: nat) returns (k: nat)
    requires j < |ids|
    ensures j <= k && IsLast(ids, k) && ids[k] == ids[j]
    decreases |ids| - j
  {
    if IsLast(ids, j) {
      k := j;
    } else {
      var i :| j < i < |ids| && ids[i] == ids[j];
      k := LastOf(ids, i);
    }
  }

  /** Behind a place repeated the links never end. */
  lemma {:induction false} GoesRound(reqs: Requests, ids: seq<nat>, j: nat, i: nat, n: nat)
    requires LinkedBack(reqs, ids) && j < i < |ids| && !IsLast(ids, j) && forall x :: j < x < |ids| ==> IsLast(ids, x)
    ensures Follow(reqs, ids[i], n).Some?
    decreases n
  {
    if n > 0 {
      assert IsLast(ids, i);
      var k := LastOf(ids, i - 1);
      if i - 1 == j { assert k != j; }
      GoesRound(reqs, ids, j, k, n - 1);
    }
  }

  /** If a request has been completed twice in one call, following the links never comes to an end. */
  lemma TwiceNeverEnds(reqs: Requests, rs: seq<Record>, n: nat)
    requires !Meddled(rs) && !Different(Completed(rs))
    ensures Completed(rs) != []
    ensures var ids := Completed(rs); Follow(DecodeAll(reqs, None, rs).0, ids[|ids| - 1], n).Some?
  {
    var ids := Completed(rs);
    LinksBack(reqs, rs);
    var a, b :| 0 <= a < b < |ids| && ids[a] == ids[b];
    assert !IsLast(ids, a);
    var j := LastRepeated(ids, |ids|);
    assert IsLast(ids, |ids| - 1);
    GoesRound(DecodeAll(reqs, None, rs).0, ids, j, |ids| - 1, n);
  }

  /** A request with a record of an unknown type, and then its end: it leads to itself. */
  lemma FaultThenEndLoops(id: nat, kind: byte)
    requires Fault(Sent(kind, id, [])) == Some(BadType)
    ensures var (reqs, ready) := DecodeAll(map[], None, [Sent(kind, id, []), Sent(STDIN, id, [])]);
            ready == Some(id) && NextReady(reqs, id) == Some(Num(id))
  {
    var a, b := Sent(kind, id, []), Sent(STDIN, id, []);
    assert [a, b][..1] == [a] && [a][..0] == [];
    assert DecodeAll(map[], None, [a]) == DecodeRecord(map[], None, a);
    var (reqs1, ready1) := DecodeRecord(map[], None, a);
    RecordLinks(map[], None, a, id);
    RecordLinks(reqs1, ready1, b, id);
  }

  /** A request is completed and then gets a parameter with the name of the link. */
  lemma LateNameBreaks(v: seq<byte>, rs: seq<Record>)
    requires |v| < 128
    requires rs == [Sent(STDIN, 1, []), Sent(PARAMS, 1, PairsBytes([Pair(KEY_NEXT_READY, v)]))]
    ensures var (reqs, ready) := DecodeAll(map[], None, rs); !Chained(reqs, ready, Completed(rs))
  {
    var p := Pair(KEY_NEXT_READY, v);
    assert [p][1..] == [];
    assert PairsBytes([p]) == PairBytes(p) + [];
    PairReads(p, []);
    var c := rs[1].content;
    assert c == PairBytes(p) + [] && c[FirstPair(c).value.end..] == [];
    assert !Malformed([]) && !Malformed(c);
    assert rs[..1] == [rs[0]] && rs[..1][..0] == [];
    assert Completed(rs[..1]) == [] + [1 as nat];
    assert Names(rs[1]) && !Completing(rs[1]) && rs[1].id in Completed(rs[..1]);
    ReadyChainIff(map[], rs);
  }
}
