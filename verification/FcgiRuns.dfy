/** Every run of fcgi_encode calls on one output buffer: the records it leaves and each request's stream. */
module FcgiRuns {
  import opened Bytes
  import opened FcgiRecord
  import opened FcgiEncode

  /** A call with data, which may pass on the offset the preceding data call returned, or one without. */
  datatype Call = Data(id: nat, s: seq<byte>, chain: bool) | End(id: nat)

  ghost predicate Legal(c: Call) { c.Data? ==> 0 < |c.s| <= MAX_CONTENT }

  ghost predicate AllLegal(calls: seq<Call>) { forall i :: 0 <= i < |calls| ==> Legal(calls[i]) }

  /** The records after the calls. */
  ghost function Records(calls: seq<Call>): seq<Record>
    requires AllLegal(calls)
  {
    if calls == [] then []
    else
      var init, c := calls[..|calls| - 1], calls[|calls| - 1];
      match c
      case Data(id, s, chain) => Sent(Records(init), chain && init != [] && init[|init| - 1].Data?, id, s)
      case End(id) => Ended(Records(init), id)
  }

  /** The buffer after the calls, and the offset the last one returned if it had data. */
  ghost function Output(calls: seq<Call>): (r: (seq<byte>, nat))
    requires AllLegal(calls)
    ensures AllTidy(Records(calls)) && r.0 == Stream(Records(calls)) && Protocol(Records(calls), r.1)
    ensures r.1 != 0 <==> calls != [] && calls[|calls| - 1].Data?
  {
    if calls == [] then ([], 0)
    else
      var init, c := calls[..|calls| - 1], calls[|calls| - 1];
      var (out, prev) := Output(init);
      match c
      case Data(id, s, chain) =>
        var p := if chain then prev else 0;
        StepIsSent(Records(init), p, id, s);
        Step(out, id, p, s)
      case End(id) =>
        StepIsSent(Records(init), 0, id, []);
        (Step(out, id, 0, []).0, 0)
  }

  // ---------------------------------------------------------------- each request's stream

  /** A byte of output, the end of the output, and the end of the request with its 8 bytes (section 5.5). */
  datatype Item = Byte(b: byte) | EndOfOutput | EndOfRequest(body: seq<byte>)

  const REQUEST_COMPLETE: byte := 0   // FCGI_REQUEST_COMPLETE

  /** The application's status, four bytes, is 0, the request is complete, and the rest is reserved. */
  const ENDS: seq<Item> := [EndOfOutput, EndOfRequest([0, 0, 0, 0, REQUEST_COMPLETE, 0, 0, 0])]

  function Items(s: seq<byte>): (r: seq<Item>)
    ensures |r| == |s| && forall i :: 0 <= i < |s| ==> r[i] == Byte(s[i])
  {
    seq(|s|, i requires 0 <= i < |s| => Byte(s[i]))
  }

  function Carried(r: Record): seq<Item> {
    if r.kind == STDOUT then if r.content == [] then [EndOfOutput] else Items(r.content)
    else if r.kind == END_REQUEST then [EndOfRequest(r.content)]
    else []
  }

  /** What the records carry for request `id`. */
  function Received(rs: seq<Record>, id: nat): seq<Item> {
    if rs == [] then []
    else Received(rs[..|rs| - 1], id) + if rs[|rs| - 1].id == id then Carried(rs[|rs| - 1]) else []
  }

  /** What the calls have passed for request `id`. */
  function Passed(calls: seq<Call>, id: nat): seq<Item> {
    if calls == [] then []
    else
      var c := calls[|calls| - 1];
      Passed(calls[..|calls| - 1], id)
      + if Id16(c.id) != id then [] else if c.Data? then Items(c.s) else ENDS
  }

  lemma ReceivedSnoc(rs: seq<Record>, r: Record, id: nat)
    ensures Received(rs + [r], id) == Received(rs, id) + if r.id == id then Carried(r) else []
  {
    assert (rs + [r])[..|rs|] == rs;
  }

  lemma ItemsAppend(a: seq<byte>, b: seq<byte>)
    ensures Items(a + b) == Items(a) + Items(b)
  {
  }

  lemma SentCarries(rs: seq<Record>, chained: bool, id: nat, s: seq<byte>, to: nat)
    requires 0 < |s| <= MAX_CONTENT
    requires chained ==> rs != [] && rs[|rs| - 1].kind == STDOUT && rs[|rs| - 1].content != []
    ensures Received(Sent(rs, chained, id, s), to) == Received(rs, to) + if Id16(id) == to then Items(s) else []
  {
    if Takes(rs, chained, id, |s|) {
      var init, last := rs[..|rs| - 1], rs[|rs| - 1];
      ReceivedSnoc(init, Longer(last, s), to);
      ItemsAppend(last.content, s);
      assert Received(rs, to) == Received(init, to) + if last.id == to then Items(last.content) else [];
    } else {
      ReceivedSnoc(rs, Fresh(id, s), to);
    }
  }

  lemma EndedCarries(rs: seq<Record>, id: nat, to: nat)
    ensures Received(Ended(rs, id), to) == Received(rs, to) + if Id16(id) == to then ENDS else []
  {
    var a, b := Written(STDOUT, id, [], 0), Written(END_REQUEST, id, Zeros(END_LEN), 0);
    assert Ended(rs, id) == rs + [a] + [b];
    ReceivedSnoc(rs, a, to);
    ReceivedSnoc(rs + [a], b, to);
    assert Zeros(END_LEN) == [0, 0, 0, 0, REQUEST_COMPLETE, 0, 0, 0];
    assert Carried(a) + Carried(b) == ENDS;
  }

  /** After a call with data the last record has some. */
  lemma LastHasData(calls: seq<Call>)
    requires AllLegal(calls) && calls != [] && calls[|calls| - 1].Data?
    ensures var rs := Records(calls); rs != [] && rs[|rs| - 1].kind == STDOUT && rs[|rs| - 1].content != []
  {
    assert Output(calls).1 != 0;
  }

  lemma {:induction false} EachStreamArrives(calls: seq<Call>, id: nat)
    requires AllLegal(calls)
    ensures Received(Records(calls), id) == Passed(calls, id)
    decreases |calls|
  {
    if calls != [] {
      var init, c := calls[..|calls| - 1], calls[|calls| - 1];
      EachStreamArrives(init, id);
      match c {
        case Data(n, s, chain) =>
          if init != [] && init[|init| - 1].Data? { LastHasData(init); }
          SentCarries(Records(init), chain && init != [] && init[|init| - 1].Data?, n, s, id);
        case End(n) =>
          EndedCarries(Records(init), n, id);
      }
    }
  }

  /**
   After any run the buffer reads as records of a length that is a multiple of eight and of at most 0xFFFF
   bytes of content, with nothing left over, and the output of each request is exactly the data passed for
   it; where it ends an empty output record and the end of the request, complete and with status 0, follow.
   */
  lemma StreamsArrive(calls: seq<Call>)
    requires AllLegal(calls)
    ensures Parse(Output(calls).0) == (Records(calls), [])
    ensures forall i :: 0 <= i < |Records(calls)| ==> Fits(Records(calls)[i]) && |Encoded(Records(calls)[i])| % 8 == 0
    ensures forall id :: Received(Records(calls), id) == Passed(calls, id)
  {
    var out := Output(calls).0;
    StreamParses(Records(calls));
    EveryRecordAligned(Records(calls));
    forall id: nat
      ensures Received(Records(calls), id) == Passed(calls, id)
    {
      EachStreamArrives(calls, id);
    }
  }

  lemma EveryRecordAligned(rs: seq<Record>)
    requires AllTidy(rs)
    ensures forall i :: 0 <= i < |rs| ==> Fits(rs[i]) && |Encoded(rs[i])| % 8 == 0
  {
    forall i | 0 <= i < |rs|
      ensures Fits(rs[i]) && |Encoded(rs[i])| % 8 == 0
    {
      assert Tidy(rs[i]);
      EightIsMultiple(|Encoded(rs[i])|);
    }
  }

  // ---------------------------------------------------------------- the offset an ending call returns

  /** What a call is to add to the stream of its request. */
  function Meant(s: seq<byte>): seq<Item> { if s == [] then ENDS else Items(s) }

  /** The records `rs'` carry just what the call was to add to those before. */
  ghost predicate Arrives(rs: seq<Record>, rs': seq<Record>, id: nat, s: seq<byte>) {
    forall to: nat {:trigger Received(rs', to)} :: Received(rs', to) == Received(rs, to) + if Id16(id) == to then Meant(s) else []
  }

  /** The data is taken up by the end record. */
  predicate Misleads(ended: nat, id: nat, s: seq<byte>) {
    s != [] && Id16(id) == Id16(ended) && END_LEN + |s| <= MAX_CONTENT
  }

  /**
   The offset returned by a call without data leads to the header of the end record.  Given to the next
   call, it spoils the streams if and only if that call has data, is for the same request and the data fits
   into the end record.
   */
  lemma EndOffsetMisleadsIff(rs: seq<Record>, ended: nat, id: nat, s: seq<byte>)
    requires AllTidy(rs) && |s| <= MAX_CONTENT
    ensures AllTidy(Ended(rs, ended)) && Readable(Stream(Ended(rs, ended)), END_OFFSET)
    ensures Step(Stream(rs), ended, 0, []) == (Stream(Ended(rs, ended)), END_OFFSET)
    ensures Arrives(Ended(rs, ended), Parse(Step(Stream(Ended(rs, ended)), id, END_OFFSET, s).0).0, id, s)
            <==> !Misleads(ended, id, s)
  {
    StepEnds(rs, ended, 0);
    EndReadable(rs, ended);
    if Misleads(ended, id, s) {
      EndMisled(rs, ended, id, s);
      MisledSpoils(rs, ended, id, s);
      StreamParses(Misled(rs, ended, s));
    } else if s == [] {
      StepEnds(Ended(rs, ended), id, END_OFFSET);
      StreamParses(Ended(Ended(rs, ended), id));
      forall to: nat
        ensures Received(Ended(Ended(rs, ended), id), to)
                == Received(Ended(rs, ended), to) + if Id16(id) == to then Meant(s) else []
      {
        EndedCarries(Ended(rs, ended), id, to);
      }
    } else {
      EndApart(rs, ended, id, s);
    }
  }

  /** A call that fails: one byte after the end of its request. */
  lemma EndOffsetWitness(b: byte)
    ensures AllTidy(Ended([], 1)) && Readable(Stream(Ended([], 1)), END_OFFSET)
    ensures !Arrives(Ended([], 1), Parse(Step(Stream(Ended([], 1)), 1, END_OFFSET, [b]).0).0, 1, [b])
  {
    EndOffsetMisleadsIff([], 1, 1, [b]);
  }

  lemma EndReadable(rs: seq<Record>, ended: nat)
    requires AllTidy(rs)
    ensures AllTidy(Ended(rs, ended)) && Readable(Stream(Ended(rs, ended)), END_OFFSET)
    ensures Ended(rs, ended) == (rs + [OutputEnd(ended)]) + [RequestEnd(ended)]
    ensures Stream(Ended(rs, ended)) == Stream(rs + [OutputEnd(ended)]) + Encoded(RequestEnd(ended))
  {
    EndsTidy(ended);
    assert Ended(rs, ended) == (rs + [OutputEnd(ended)]) + [RequestEnd(ended)];
    StreamSnoc(rs + [OutputEnd(ended)], RequestEnd(ended));
    LastHeader(Stream(rs + [OutputEnd(ended)]), RequestEnd(ended));
  }

  lemma EndMisled(rs: seq<Record>, ended: nat, id: nat, s: seq<byte>)
    requires AllTidy(rs) && Misleads(ended, id, s)
    ensures AllTidy(Ended(rs, ended)) && Readable(Stream(Ended(rs, ended)), END_OFFSET)
    ensures AllTidy(Misled(rs, ended, s))
    ensures Step(Stream(Ended(rs, ended)), id, END_OFFSET, s).0 == Stream(Misled(rs, ended, s))
  {
    EndReadable(rs, ended);
    EndsTidy(ended);
    var init, last := rs + [OutputEnd(ended)], RequestEnd(ended);
    StepTaken(init, last, id, s);
    assert init + [Longer(last, s)] == Misled(rs, ended, s);
  }

  lemma MisledSpoils(rs: seq<Record>, ended: nat, id: nat, s: seq<byte>)
    requires Misleads(ended, id, s)
    ensures !Arrives(Ended(rs, ended), Misled(rs, ended, s), id, s)
  {
    var to := Id16(ended);
    EndedCarries(rs, ended, to);
    assert Misled(rs, ended, s) == (rs + [OutputEnd(ended)]) + [Longer(RequestEnd(ended), s)];
    ReceivedSnoc(rs + [OutputEnd(ended)], Longer(RequestEnd(ended), s), to);
    ReceivedSnoc(rs, OutputEnd(ended), to);
    assert |Received(Misled(rs, ended, s), to)| == |Received(rs, to)| + 2;
    assert |Received(Ended(rs, ended), to) + Meant(s)| > |Received(rs, to)| + 2;
  }

  /** Any other data gets a record of its own. */
  lemma EndApart(rs: seq<Record>, ended: nat, id: nat, s: seq<byte>)
    requires AllTidy(rs) && 0 < |s| <= MAX_CONTENT && !Misleads(ended, id, s)
    ensures AllTidy(Ended(rs, ended)) && Readable(Stream(Ended(rs, ended)), END_OFFSET)
    ensures Arrives(Ended(rs, ended), Parse(Step(Stream(Ended(rs, ended)), id, END_OFFSET, s).0).0, id, s)
  {
    EndReadable(rs, ended);
    EndsTidy(ended);
    var all := Ended(rs, ended);
    assert all[..|all| - 1] == rs + [OutputEnd(ended)] && all[|all| - 1] == RequestEnd(ended);
    StepFresh(all, END_OFFSET, id, s);
    StreamParses(all + [Fresh(id, s)]);
    forall to: nat
      ensures Received(all + [Fresh(id, s)], to) == Received(all, to) + if Id16(id) == to then Meant(s) else []
    {
      ReceivedSnoc(all, Fresh(id, s), to);
    }
  }

  /** The two records of a call without data. */
  function OutputEnd(id: nat): Record { Written(STDOUT, id, [], 0) }
  function RequestEnd(id: nat): Record { Written(END_REQUEST, id, Zeros(END_LEN), 0) }

  /** The records with the data in the end record. */
  function Misled(rs: seq<Record>, id: nat, s: seq<byte>): seq<Record> {
    rs + [OutputEnd(id), Longer(RequestEnd(id), s)]
  }

  lemma EndsTidy(id: nat)
    ensures Tidy(OutputEnd(id)) && Tidy(RequestEnd(id)) && OffsetOf(RequestEnd(id)) == END_OFFSET
  {
    WrittenTidy(STDOUT, id, [], 0);
    WrittenTidy(END_REQUEST, id, Zeros(END_LEN), 0);
  }
}
