/** A whole FastCGI request, written as section 3.3, 3.4 and 5 of the specification say, and what fcgi_decode makes of it. */
module FcgiRequest {
  import opened Bytes
  import opened FcgiRecord
  import opened FcgiDecode

  // ---------------------------------------------------------------- name-value pairs (section 3.4)

  datatype Pair = Pair(name: seq<byte>, value: seq<byte>)

  ghost predicate Storable(p: Pair) { |p.name| < 0x8000_0000 && |p.value| < 0x8000_0000 }

  function Quotient(n: nat): nat { n / 0x1_0000 }
  function Remainder(n: nat): nat { n % 0x1_0000 }

  lemma Divided(n: nat)
    requires n < 0x8000_0000
    ensures n == 0x1_0000 * Quotient(n) + Remainder(n) && Quotient(n) <= 0x7FFF && Remainder(n) <= 0xFFFF
  {
  }

  /** A length below 128 takes one byte, any other four with the highest bit set. */
  function LengthBytes(n: nat): (d: seq<byte>)
    requires n < 0x8000_0000
    ensures |d| == if n < 128 then 1 else 4
  {
    if n < 128 then [n]
    else
      Divided(n);
      var h, l := Quotient(n), Remainder(n);
      [Hi(h) + 128, Lo(h), Hi(l), Lo(l)]
  }

  function PairBytes(p: Pair): (d: seq<byte>)
    requires Storable(p)
    ensures d != []
  {
    LengthBytes(|p.name|) + LengthBytes(|p.value|) + p.name + p.value
  }

  function PairsBytes(ps: seq<Pair>): seq<byte>
    requires forall i :: 0 <= i < |ps| ==> Storable(ps[i])
  {
    if ps == [] then [] else PairBytes(ps[0]) + PairsBytes(ps[1..])
  }

  lemma LengthReads(n: nat, rest: seq<byte>)
    requires n < 0x8000_0000 && (n >= 128 ==> rest != [])
    ensures Length(LengthBytes(n) + rest) == Some((n, |LengthBytes(n)|))
  {
    if n >= 128 {
      Divided(n);
      Be16Inverts(Quotient(n));
      Be16Inverts(Remainder(n));
      var c := LengthBytes(n) + rest;
      assert c[0] as int == Hi(Quotient(n)) as int + 128 && c[1] == Lo(Quotient(n));
    }
  }

  lemma PairReads(p: Pair, rest: seq<byte>)
    requires Storable(p)
    ensures var c := PairBytes(p) + rest;
            && FirstPair(c).Some?
            && var s := FirstPair(c).value;
               c[s.name..s.value] == p.name && c[s.value..s.end] == p.value && c[s.end..] == rest
  {
    var a, b := LengthBytes(|p.name|), LengthBytes(|p.value|);
    PairSpans(a, b, p, rest);
    PairSlices(a + b, p.name, p.value, rest);
    assert PairBytes(p) + rest == a + b + p.name + p.value + rest;
  }

  lemma PairSpans(a: seq<byte>, b: seq<byte>, p: Pair, rest: seq<byte>)
    requires Storable(p) && a == LengthBytes(|p.name|) && b == LengthBytes(|p.value|)
    ensures var i := |a| + |b|;
            FirstPair(PairBytes(p) + rest) == Some(Span(i, i + |p.name|, i + |p.name| + |p.value|))
  {
    var tail := p.name + p.value + rest;
    var c, c1 := PairBytes(p) + rest, b + tail;
    assert c == a + c1 && c[|a|..] == c1 && |tail| >= |p.value|;
    LengthReads(|p.name|, c1);
    LengthReads(|p.value|, tail);
  }

  lemma PairSlices(ab: seq<byte>, name: seq<byte>, value: seq<byte>, rest: seq<byte>)
    ensures var c := ab + name + value + rest;
            && c[|ab|..|ab| + |name|] == name && c[|ab| + |name|..|ab| + |name| + |value|] == value
            && c[|ab| + |name| + |value|..] == rest
  {
  }

  function SetAll(req: Request, ps: seq<Pair>): Request
    decreases |ps|
  {
    if ps == [] then req else SetAll(req[ps[0].name := Str(ps[0].value)], ps[1..])
  }

  /** Every list of pairs that section 3.4 allows arrives as it was sent. */
  lemma {:induction false} ParamsArrive(req: Request, ps: seq<Pair>)
    requires forall i :: 0 <= i < |ps| ==> Storable(ps[i])
    ensures DecodeParams(req, PairsBytes(ps)) == (SetAll(req, ps), None)
    decreases |ps|
  {
    if ps != [] {
      PairReads(ps[0], PairsBytes(ps[1..]));
      ParamsArrive(req[ps[0].name := Str(ps[0].value)], ps[1..]);
    }
  }

  // ---------------------------------------------------------------- records one after another

  function DecodeAll(reqs: Requests, ready: Option<nat>, rs: seq<Record>): (Requests, Option<nat>) {
    if rs == [] then (reqs, ready)
    else
      var (reqs1, ready1) := DecodeAll(reqs, ready, rs[..|rs| - 1]);
      DecodeRecord(reqs1, ready1, rs[|rs| - 1])
  }

  lemma {:induction false} StreamDecodes(reqs: Requests, ready: Option<nat>, rs: seq<Record>)
    requires AllFit(rs)
    ensures Decode(reqs, ready, Stream(rs)) == (DecodeAll(reqs, ready, rs).0, DecodeAll(reqs, ready, rs).1, [])
    decreases |rs|
  {
    if rs != [] {
      var init, last := rs[..|rs| - 1], rs[|rs| - 1];
      StreamDecodes(reqs, ready, init);
      DecodeGoesOn(reqs, ready, Stream(init), Encoded(last));
      var (reqs1, ready1) := DecodeAll(reqs, ready, init);
      OneRecord(reqs1, ready1, last);
      assert [] + Encoded(last) == Encoded(last);
    }
  }

  lemma OneRecord(reqs: Requests, ready: Option<nat>, r: Record)
    requires Fits(r)
    ensures Decode(reqs, ready, Encoded(r)) == (DecodeRecord(reqs, ready, r).0, DecodeRecord(reqs, ready, r).1, [])
  {
    FrontOfEncoded(r, []);
    EncodedHeader(r, []);
    assert Encoded(r) + [] == Encoded(r);
    HeadersParse(r, Encoded(r));
    assert Encoded(r)[|Encoded(r)|..] == [];
  }

  // ---------------------------------------------------------------- a request

  function Sent(kind: byte, id: nat, content: seq<byte>): Record { Record(VERSION, kind, id, content, [], 0) }

  function BeginBytes(keep: bool): seq<byte> { [0, 1, if keep then 1 else 0, 0, 0, 0, 0, 0] }

  function Body(id: nat, parts: seq<seq<byte>>): (r: seq<Record>)
    ensures |r| == |parts| && forall i :: 0 <= i < |parts| ==> r[i] == Sent(STDIN, id, parts[i])
  {
    seq(|parts|, i requires 0 <= i < |parts| => Sent(STDIN, id, parts[i]))
  }

  ghost predicate AllStorable(groups: seq<seq<Pair>>) {
    forall i, j :: 0 <= i < |groups| && 0 <= j < |groups[i]| ==> Storable(groups[i][j])
  }

  /** The parameters group by group, each pair whole in its record. */
  ghost function Params(id: nat, groups: seq<seq<Pair>>): (r: seq<Record>)
    requires AllStorable(groups)
    ensures |r| == |groups| && forall i :: 0 <= i < |groups| ==> r[i] == Sent(PARAMS, id, PairsBytes(groups[i]))
  {
    seq(|groups|, i requires 0 <= i < |groups| => Sent(PARAMS, id, PairsBytes(groups[i])))
  }

  /** The records before the body: the request begins, its parameters, the end of these. */
  ghost function Opening(id: nat, keep: bool, groups: seq<seq<Pair>>): seq<Record>
    requires AllStorable(groups)
  {
    [Sent(BEGIN_REQUEST, id, BeginBytes(keep))] + Params(id, groups) + [Sent(PARAMS, id, [])]
  }

  /** The request after its parameters. */
  function Opened(id: nat, keep: bool, ps: seq<Pair>): Request {
    SetAll(Newcomer(id)[KEY_KEEP_CONN := Flag(keep)], ps)
  }

  lemma {:induction false} SetAllGoesOn(req: Request, a: seq<Pair>, b: seq<Pair>)
    ensures SetAll(req, a + b) == SetAll(SetAll(req, a), b)
    decreases |a|
  {
    if a == [] {
      assert a + b == b;
    } else {
      assert (a + b)[1..] == a[1..] + b;
      SetAllGoesOn(req[a[0].name := Str(a[0].value)], a[1..], b);
    }
  }

  lemma {:induction false} ParamsDecode(reqs: Requests, ready: Option<nat>, id: nat, groups: seq<seq<Pair>>)
    requires id in reqs && AllStorable(groups)
    ensures DecodeAll(reqs, ready, Params(id, groups)) == (reqs[id := SetAll(reqs[id], Flat(groups))], ready)
    decreases |groups|
  {
    if groups == [] {
      assert reqs[id := reqs[id]] == reqs;
    } else {
      var init, last := groups[..|groups| - 1], groups[|groups| - 1];
      ParamsDecode(reqs, ready, id, init);
      assert Params(id, groups)[..|init|] == Params(id, init);
      assert groups == init + [last];
      FlatSnoc(init, last);
      SetAllGoesOn(reqs[id], Flat(init), last);
      ParamsGrow(reqs, ready, id, SetAll(reqs[id], Flat(init)), last);
    }
  }

  lemma ParamsGrow(reqs: Requests, ready: Option<nat>, id: nat, req: Request, ps: seq<Pair>)
    requires forall i :: 0 <= i < |ps| ==> Storable(ps[i])
    ensures DecodeRecord(reqs[id := req], ready, Sent(PARAMS, id, PairsBytes(ps))) == (reqs[id := SetAll(req, ps)], ready)
  {
    var q := SetAll(req, ps);
    ParamsArrive(req, ps);
    Updates(reqs[id := req], ready, Sent(PARAMS, id, PairsBytes(ps)), req, q);
    assert reqs[id := req][id := q] == reqs[id := q];
  }

  lemma BeginDecodes(reqs: Requests, ready: Option<nat>, a: Record, keep: bool)
    requires a == Sent(BEGIN_REQUEST, a.id, BeginBytes(keep)) && a.id !in reqs
    ensures DecodeAll(reqs, ready, [a]) == (reqs[a.id := Newcomer(a.id)[KEY_KEEP_CONN := Flag(keep)]], ready)
  {
    var q := Newcomer(a.id)[KEY_KEEP_CONN := Flag(keep)];
    assert DecodeBegin(Newcomer(a.id), BeginBytes(keep)) == (q, None);
    Updates(reqs, ready, a, Newcomer(a.id), q);
    assert [a][..0] == [];
  }

  lemma OpeningDecodes(reqs: Requests, ready: Option<nat>, id: nat, keep: bool, groups: seq<seq<Pair>>)
    requires id !in reqs && AllStorable(groups)
    ensures DecodeAll(reqs, ready, Opening(id, keep, groups)) == (reqs[id := Opened(id, keep, Flat(groups))], ready)
  {
    var a, z := Sent(BEGIN_REQUEST, id, BeginBytes(keep)), Sent(PARAMS, id, []);
    var q := Newcomer(id)[KEY_KEEP_CONN := Flag(keep)];
    BeginDecodes(reqs, ready, a, keep);
    ParamsBetween(reqs, ready, [a], id, q, groups);
    ParamsEnd(reqs, ready, [a] + Params(id, groups), z, SetAll(q, Flat(groups)));
  }

  lemma ParamsBetween(reqs: Requests, ready: Option<nat>, a: seq<Record>, id: nat, q: Request, groups: seq<seq<Pair>>)
    requires AllStorable(groups) && DecodeAll(reqs, ready, a) == (reqs[id := q], ready)
    ensures DecodeAll(reqs, ready, a + Params(id, groups)) == (reqs[id := SetAll(q, Flat(groups))], ready)
  {
    ParamsDecode(reqs[id := q], ready, id, groups);
    var q' := SetAll(q, Flat(groups));
    assert reqs[id := q][id := q'] == reqs[id := q'];
    DecodeAllGoesOn(reqs, ready, a, Params(id, groups));
  }

  /** The empty record after the parameters changes nothing. */
  lemma ParamsEnd(reqs: Requests, ready: Option<nat>, rs: seq<Record>, z: Record, q: Request)
    requires DecodeAll(reqs, ready, rs) == (reqs[z.id := q], ready) && z == Sent(PARAMS, z.id, [])
    ensures DecodeAll(reqs, ready, rs + [z]) == (reqs[z.id := q], ready)
  {
    DecodeAllSnoc(reqs, ready, rs, z);
    Updates(reqs[z.id := q], ready, z, q, q);
    assert reqs[z.id := q][z.id := q] == reqs[z.id := q];
  }

  lemma Joined(reqs: Requests, ready: Option<nat>, a: seq<Record>, b: seq<Record>, z: Record, ra: Requests, rb: Requests)
    requires DecodeAll(reqs, ready, a) == (ra, ready) && DecodeAll(ra, ready, b) == (rb, ready)
    ensures DecodeAll(reqs, ready, a + b + [z]) == DecodeRecord(rb, ready, z)
  {
    DecodeAllGoesOn(reqs, ready, a, b);
    DecodeAllSnoc(reqs, ready, a + b, z);
  }

  /** A record that neither fails nor completes its request. */
  lemma Updates(reqs: Requests, ready: Option<nat>, r: Record, req: Request, q: Request)
    requires req == if r.id in reqs then reqs[r.id] else Newcomer(r.id)
    requires DecodeContent(req, r) == (q, None, false)
    ensures DecodeRecord(reqs, ready, r) == (reqs[r.id := q], ready)
  {
  }

  /** What stands under the key of the body before there is one: nothing, unless a parameter has its name. */
  function Before(req: Request): seq<byte> {
    if KEY_STDIN in req && req[KEY_STDIN].Str? then req[KEY_STDIN].s else []
  }

  /** The body is only ever appended to a string. */
  predicate TakesBody(req: Request) { KEY_STDIN in req ==> req[KEY_STDIN].Str? }

  function WithBody(req: Request, parts: seq<seq<byte>>): Request {
    if parts == [] then req else req[KEY_STDIN := Str(Before(req) + Flat(parts))]
  }

  lemma {:induction false} SetAllTakesBody(req: Request, ps: seq<Pair>)
    requires TakesBody(req)
    ensures TakesBody(SetAll(req, ps))
    decreases |ps|
  {
    if ps != [] {
      SetAllTakesBody(req[ps[0].name := Str(ps[0].value)], ps[1..]);
    }
  }

  lemma OpenedTakesBody(id: nat, keep: bool, ps: seq<Pair>)
    ensures TakesBody(Opened(id, keep, ps))
  {
    var req := Newcomer(id)[KEY_KEEP_CONN := Flag(keep)];
    assert KEY_STDIN !in req by {
      assert |KEY_STDIN| != |KEY_ID| && |KEY_STDIN| != |KEY_CHANNEL| && |KEY_STDIN| != |KEY_KEEP_CONN|;
    }
    SetAllTakesBody(req, ps);
  }

  lemma {:induction false} BodyDecodes(reqs: Requests, ready: Option<nat>, id: nat, parts: seq<seq<byte>>)
    requires id in reqs && TakesBody(reqs[id]) && forall i :: 0 <= i < |parts| ==> parts[i] != []
    ensures DecodeAll(reqs, ready, Body(id, parts)) == (reqs[id := WithBody(reqs[id], parts)], ready)
    decreases |parts|
  {
    if parts == [] {
      assert reqs[id := reqs[id]] == reqs;
    } else {
      var init, last := parts[..|parts| - 1], parts[|parts| - 1];
      BodyDecodes(reqs, ready, id, init);
      assert Body(id, parts)[..|init|] == Body(id, init);
      assert parts == init + [last];
      FlatSnoc(init, last);
      BodyGrows(reqs, ready, id, init, last);
    }
  }

  lemma BodyGrows(reqs: Requests, ready: Option<nat>, id: nat, init: seq<seq<byte>>, last: seq<byte>)
    requires id in reqs && TakesBody(reqs[id]) && last != [] && Flat(init + [last]) == Flat(init) + last
    ensures DecodeRecord(reqs[id := WithBody(reqs[id], init)], ready, Sent(STDIN, id, last))
            == (reqs[id := WithBody(reqs[id], init + [last])], ready)
  {
    var req := WithBody(reqs[id], init);
    var q := WithBody(reqs[id], init + [last]);
    var before := Before(reqs[id]);
    assert before + Flat(init) + last == before + (Flat(init) + last);
    if init == [] {
      assert Flat(init) + last == last && before + last == before + (Flat(init) + last);
    } else {
      assert reqs[id][KEY_STDIN := Str(before + Flat(init))][KEY_STDIN := Str(before + Flat(init) + last)] == q;
    }
    assert DecodeStdin(req, last) == q;
    Updates(reqs[id := req], ready, Sent(STDIN, id, last), req, q);
    assert reqs[id := req][id := q] == reqs[id := q];
  }

  lemma {:induction false} DecodeAllGoesOn(reqs: Requests, ready: Option<nat>, a: seq<Record>, b: seq<Record>)
    ensures DecodeAll(reqs, ready, a + b) == DecodeAll(DecodeAll(reqs, ready, a).0, DecodeAll(reqs, ready, a).1, b)
    decreases |b|
  {
    if b == [] {
      assert a + b == a;
    } else {
      assert (a + b)[..|a + b| - 1] == a + b[..|b| - 1];
      DecodeAllGoesOn(reqs, ready, a, b[..|b| - 1]);
    }
  }

  /** All records of one request. */
  ghost function Whole(id: nat, keep: bool, groups: seq<seq<Pair>>, parts: seq<seq<byte>>): seq<Record>
    requires AllStorable(groups)
  {
    Opening(id, keep, groups) + Body(id, parts) + [Sent(STDIN, id, [])]
  }

  /**
   A request that begins, has its parameters and its body in any number of records ends up in the table with
   its connection flag, every parameter and the whole body, and is reported ready, also when its bytes arrive
   in arbitrary chunks (SplitDoesNotMatter).  A parameter with the key of the body stands before it.
   */
  lemma RequestArrives(id: nat, keep: bool, groups: seq<seq<Pair>>, parts: seq<seq<byte>>)
    requires id <= 0xFFFF && AllStorable(groups)
    requires forall i :: 0 <= i < |groups| ==> |PairsBytes(groups[i])| <= MAX_CONTENT
    requires forall i :: 0 <= i < |parts| ==> 0 < |parts[i]| <= MAX_CONTENT
    ensures AllFit(Whole(id, keep, groups, parts))
    ensures Decode(map[], None, Stream(Whole(id, keep, groups, parts)))
            == (map[id := SetReady(WithBody(Opened(id, keep, Flat(groups)), parts), None)], Some(id), [])
  {
    var a, b, z := Opening(id, keep, groups), Body(id, parts), Sent(STDIN, id, []);
    var q := Opened(id, keep, Flat(groups));
    OpeningDecodes(map[], None, id, keep, groups);
    OpenedTakesBody(id, keep, Flat(groups));
    BodyDecodes(map[id := q], None, id, parts);
    Concluded(a, b, z, id, q, WithBody(q, parts));
    WholeFits(id, keep, groups, parts);
    StreamDecodes(map[], None, a + b + [z]);
  }

  lemma WholeFits(id: nat, keep: bool, groups: seq<seq<Pair>>, parts: seq<seq<byte>>)
    requires id <= 0xFFFF && AllStorable(groups)
    requires forall i :: 0 <= i < |groups| ==> |PairsBytes(groups[i])| <= MAX_CONTENT
    requires forall i :: 0 <= i < |parts| ==> |parts[i]| <= MAX_CONTENT
    ensures AllFit(Whole(id, keep, groups, parts))
  {
    var rs := Whole(id, keep, groups, parts);
    forall i | 0 <= i < |rs|
      ensures Fits(rs[i])
    {
      if 1 <= i <= |groups| {
        assert rs[i] == Params(id, groups)[i - 1];
      } else if |groups| + 2 <= i < |groups| + 2 + |parts| {
        assert rs[i] == Sent(STDIN, id, parts[i - |groups| - 2]);
      }
    }
  }

  lemma Concluded(a: seq<Record>, b: seq<Record>, z: Record, id: nat, q: Request, q': Request)
    requires DecodeAll(map[], None, a) == (map[id := q], None)
    requires DecodeAll(map[id := q], None, b) == (map[id := q][id := q'], None)
    requires z == Sent(STDIN, id, [])
    ensures DecodeAll(map[], None, a + b + [z]) == (map[id := SetReady(q', None)], Some(id))
  {
    assert map[id := q][id := q'] == map[id := q'];
    Joined(map[], None, a, b, z, map[id := q], map[id := q']);
    Completes(map[id := q'], id);
    assert map[id := q'][id := SetReady(q', None)] == map[id := SetReady(q', None)];
  }

  lemma DecodeAllSnoc(reqs: Requests, ready: Option<nat>, rs: seq<Record>, z: Record)
    ensures var (reqs1, ready1) := DecodeAll(reqs, ready, rs);
            DecodeAll(reqs, ready, rs + [z]) == DecodeRecord(reqs1, ready1, z)
  {
    assert (rs + [z])[..|rs|] == rs;
  }

  /** The empty record after the body makes the request ready. */
  lemma Completes(reqs: Requests, id: nat)
    requires id in reqs
    ensures DecodeRecord(reqs, None, Sent(STDIN, id, [])) == (reqs[id := SetReady(reqs[id], None)], Some(id))
  {
  }
}
