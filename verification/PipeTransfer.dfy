/** A put and a get of Lua values, from the sender's stack through the bytes of the pipe to the receiver's. */
module PipeTransfer {
  import opened Bytes
  import opened PipeRing
  import opened PipeFifo
  import opened PipeMessage
  import opened PipeQueue

  /** The bytes of a message stand for these values. */
  ghost predicate Carries(m: PipeRing.Message, vs: seq<Value>) {
    && IsMessage(m) && Primitive(vs)
    && |m| == 2 + Length(Items(vs)) && Encodes(m[2..], 0, Items(vs))
  }

  /** The message of pipe_put. */
  method Compose(vs: seq<Value>) returns (r: Result<PipeRing.Message>)
    requires forall v :: v in vs ==> v.Wellformed()
    ensures r.Failure? <==> Complaint(vs, 0, 0).Some?
    ensures r.Failure? ==> r.error == Complaint(vs, 0, 0).value
    ensures r.Success? ==> Carries(r.value, vs)
  {
    var items := new byte[MSG_MAXSIZE];
    var size := Build(vs, items);
    if size.Failure? {
      return Failure(size.error);
    }
    BuiltIsMessage(vs, items[..]);
    WireEncodes(vs, items[..]);
    return Success(Wire(size.value, items[..]));
  }

  /** pipe_get: whatever list the oldest message carries comes back, and only that message is gone. */
  method Receive(q: PipeQueue, ghost vs: seq<Value>) returns (r: Option<seq<Value>>)
    requires q.Valid() && (Flat(q.qs) != [] ==> Carries(Flat(q.qs)[0], vs))
    modifies q
    ensures q.Valid()
    ensures r == if old(Flat(q.qs)) == [] then None else Some(Received(vs))
    ensures r.Some? ==> |r.value| == |vs|
    ensures r.Some? ==> forall i :: 0 <= i < |vs| ==>
              r.value[i] == if vs[i].Userdata? then LightUserdata(vs[i].ptr) else vs[i]
    ensures Flat(q.qs) == if old(Flat(q.qs)) == [] then [] else old(Flat(q.qs))[1..]
  {
    var m := q.TryGet();
    if m.None? {
      return None;
    }
    var out := Parse(m.value[2..], |m.value|, vs);
    return Some(out);
  }
}
