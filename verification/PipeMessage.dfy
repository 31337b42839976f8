/**
 Messages of the inter-VM pipe: a list of Lua values as a run of aligned items behind a 16-bit size.
 The layout is that of struct message_item on a 64-bit little-endian host: the union starts at
 byte 8 of an item and takes 8 bytes.
 */
module PipeMessage {
  import opened Bytes
  import PipeRing

  const MSG_MAXSIZE: nat := 512
  const ITEM_ALIGN: nat := 4
  const HEADER: nat := 8
  const WORD: nat := 8

  /** A Lua value as the stack shows it; `Other` is a table, function or thread. */
  datatype Value =
    | Nil
    | Boolean(b: bool)
    | Number(num: seq<byte>)
    | Str(s: seq<byte>)
    | LightUserdata(ptr: seq<byte>)
    | Userdata(ptr: seq<byte>)
    | Other(luaType: byte)
  {
    /** Numbers and pointers are machine words; `Other` is none of the types with a case. */
    predicate Wellformed() {
      match this
      case Number(num) => |num| == WORD
      case LightUserdata(ptr) => |ptr| == WORD
      case Userdata(ptr) => |ptr| == WORD
      case Other(t) => t in {5, 6, 8}
      case _ => true
    }

    /** lua_type. */
    function Type(): byte {
      match this
      case Nil => 0
      case Boolean(_) => 1
      case LightUserdata(_) => 2
      case Number(_) => 3
      case Str(_) => 4
      case Userdata(_) => 7
      case Other(t) => t
    }

    /** The bytes put into the union. */
    function Payload(): seq<byte> {
      match this
      case Nil => []
      case Boolean(b) => [if b then 1 else 0]
      case Number(num) => num
      case Str(s) => s
      case LightUserdata(ptr) => ptr
      case Userdata(ptr) => ptr
      case Other(_) => []
    }

    function AsItem(): Item { Item(Type(), Payload()) }

    /** What pipe_msg_build reserves room for before it looks at the type. */
    function Need(): nat {
      if Str? then |s| else WORD
    }

    /** The value the reader gets: userdata arrive as light pointers. */
    function Received(): Value {
      if Userdata? then LightUserdata(ptr) else this
    }
  }

  /** struct message_item: a type tag and that many bytes of the union. */
  datatype Item = Item(tag: byte, payload: seq<byte>)

  datatype Error = TooBig(index: nat) | NotPrimitive(index: nat)

  datatype Result<+T> = Success(value: T) | Failure(error: Error)

  function Align(n: nat): (r: nat)
    ensures n <= r < n + ITEM_ALIGN && r % ITEM_ALIGN == 0
  {
    (n + (ITEM_ALIGN - 1)) / ITEM_ALIGN * ITEM_ALIGN
  }

  function ItemLen(i: Item): (r: nat)
    ensures HEADER + |i.payload| <= r < HEADER + |i.payload| + ITEM_ALIGN
  {
    HEADER + Align(|i.payload|)
  }

  function Length(items: seq<Item>): nat {
    if items == [] then 0 else ItemLen(items[0]) + Length(items[1..])
  }

  function Items(vs: seq<Value>): (r: seq<Item>)
    ensures |r| == |vs|
  {
    seq(|vs|, i requires 0 <= i < |vs| => vs[i].AsItem())
  }

  predicate Primitive(vs: seq<Value>) {
    forall v :: v in vs ==> v.Wellformed() && !v.Other?
  }

  /** The first complaint about the values, the first of them being item `index` at offset `at`. */
  function Complaint(vs: seq<Value>, at: nat, index: nat): Option<Error>
    decreases |vs|
  {
    if vs == [] then None
    else if at + HEADER + vs[0].Need() >= MSG_MAXSIZE - ITEM_ALIGN then Some(TooBig(index))
    else if vs[0].Other? then Some(NotPrimitive(index))
    else Complaint(vs[1..], at + ItemLen(vs[0].AsItem()), index + 1)
  }

  /** The condition on one value of the list: primitive, and room for it behind the items before it. */
  predicate Fits(vs: seq<Value>, k: nat, at: nat)
    requires k < |vs|
  {
    !vs[k].Other? && at + Length(Items(vs[..k])) + HEADER + vs[k].Need() < MSG_MAXSIZE - ITEM_ALIGN
  }

  lemma FitsTail(vs: seq<Value>, k: nat, at: nat)
    requires 0 < k < |vs|
    ensures Fits(vs, k, at) == Fits(vs[1..], k - 1, at + ItemLen(vs[0].AsItem()))
  {
    var a, b := Items(vs[..k]), Items(vs[1..][..k - 1]);
    assert a[0] == vs[0].AsItem();
    assert a[1..] == b;
    assert Length(a) == ItemLen(a[0]) + Length(b);
  }

  /** A list is accepted exactly when each of its values fits behind those before it. */
  lemma {:induction false} AcceptedIff(vs: seq<Value>, at: nat, index: nat)
    ensures Complaint(vs, at, index) == None <==> forall k :: 0 <= k < |vs| ==> Fits(vs, k, at)
    decreases |vs|
  {
    if vs != [] {
      var next := at + ItemLen(vs[0].AsItem());
      AcceptedIff(vs[1..], next, index + 1);
      assert Items(vs[..0]) == [];
      assert Fits(vs, 0, at) <==> !vs[0].Other? && at + HEADER + vs[0].Need() < MSG_MAXSIZE - ITEM_ALIGN;
      forall k | 0 <= k < |vs| - 1
        ensures Fits(vs, k + 1, at) == Fits(vs[1..], k, next)
      {
        FitsTail(vs, k + 1, at);
      }
      forall k | 0 < k < |vs|
        ensures Fits(vs, k, at) == Fits(vs[1..], k - 1, next)
      {
        FitsTail(vs, k, at);
      }
    }
  }

  /** `i` stands at `at`; the rest of its header and its padding are not looked at. */
  ghost predicate ItemAt(d: seq<byte>, at: nat, i: Item) {
    && at + HEADER + |i.payload| <= |d|
    && d[at] == i.tag
    && U16(d, at + 1) == |i.payload|
    && d[at + HEADER..at + HEADER + |i.payload|] == i.payload
  }

  ghost predicate Encodes(d: seq<byte>, at: nat, items: seq<Item>)
    decreases |items|
  {
    items == [] || (ItemAt(d, at, items[0]) && Encodes(d, at + ItemLen(items[0]), items[1..]))
  }

  /** The item is too big for what is left. */
  predicate Overflows(vs: seq<Value>, k: nat, at: nat)
    requires k < |vs|
  {
    at + Length(Items(vs[..k])) + HEADER + vs[k].Need() >= MSG_MAXSIZE - ITEM_ALIGN
  }

  /** The complaint is about the first value that does not fit or is not primitive, and says which it is. */
  lemma {:induction false} ComplaintIsFirst(vs: seq<Value>, at: nat, index: nat) returns (k: nat)
    requires Complaint(vs, at, index).Some?
    ensures k < |vs| && !Fits(vs, k, at) && forall j :: 0 <= j < k ==> Fits(vs, j, at)
    ensures Complaint(vs, at, index)
            == Some(if Overflows(vs, k, at) then TooBig(index + k) else NotPrimitive(index + k))
    decreases |vs|
  {
    assert Items(vs[..0]) == [];
    if Overflows(vs, 0, at) || vs[0].Other? {
      k := 0;
    } else {
      var next := at + ItemLen(vs[0].AsItem());
      var k1 := ComplaintIsFirst(vs[1..], next, index + 1);
      k := k1 + 1;
      FitsTail(vs, k, at);
      OverflowsTail(vs, k, at);
      forall j | 0 <= j < k
        ensures Fits(vs, j, at)
      {
        if j > 0 { FitsTail(vs, j, at); }
      }
    }
  }

  lemma OverflowsTail(vs: seq<Value>, k: nat, at: nat)
    requires 0 < k < |vs|
    ensures Overflows(vs, k, at) == Overflows(vs[1..], k - 1, at + ItemLen(vs[0].AsItem()))
  {
    var a, b := Items(vs[..k]), Items(vs[1..][..k - 1]);
    assert a[0] == vs[0].AsItem();
    assert a[1..] == b;
    assert Length(a) == ItemLen(a[0]) + Length(b);
  }

  function Received(vs: seq<Value>): (r: seq<Value>)
    ensures |r| == |vs|
  {
    seq(|vs|, i requires 0 <= i < |vs| => vs[i].Received())
  }

  lemma {:induction false} LengthSnoc(items: seq<Item>, i: Item)
    ensures Length(items + [i]) == Length(items) + ItemLen(i)
  {
    if items != [] {
      assert (items + [i])[1..] == items[1..] + [i];
      LengthSnoc(items[1..], i);
    }
  }

  lemma {:induction false} EncodesSnoc(d: seq<byte>, at: nat, items: seq<Item>, i: Item)
    requires Encodes(d, at, items) && ItemAt(d, at + Length(items), i)
    ensures Encodes(d, at, items + [i])
    decreases |items|
  {
    if items == [] {
      assert (items + [i])[1..] == [];
    } else {
      assert (items + [i])[1..] == items[1..] + [i];
      EncodesSnoc(d, at + ItemLen(items[0]), items[1..], i);
    }
  }

  /** Equal bytes over the items encode the same items. */
  lemma {:induction false} EncodesFrame(d: seq<byte>, e: seq<byte>, at: nat, items: seq<Item>)
    requires Encodes(d, at, items) && at + Length(items) <= |e| && |d| <= MSG_MAXSIZE
    requires forall j :: 0 <= j < at + Length(items) && j < |d| ==> d[j] == e[j]
    ensures Encodes(e, at, items)
    decreases |items|
  {
    if items != [] {
      ItemFrame(d, e, at, items[0]);
      EncodesFrame(d, e, at + ItemLen(items[0]), items[1..]);
    }
  }

  lemma ItemFrame(d: seq<byte>, e: seq<byte>, at: nat, i: Item)
    requires ItemAt(d, at, i) && at + ItemLen(i) <= |e|
    requires forall j :: 0 <= j < at + ItemLen(i) && j < |d| ==> d[j] == e[j]
    ensures ItemAt(e, at, i)
  {
    var n := |i.payload|;
    assert d[at + HEADER..at + HEADER + n] == e[at + HEADER..at + HEADER + n];
  }

  /** memcpy into the message. */
  method Copy(items: array<byte>, at: nat, s: seq<byte>)
    requires at + |s| <= items.Length
    modifies items
    ensures items[at..at + |s|] == s
    ensures forall j :: 0 <= j < items.Length && !(at <= j < at + |s|) ==> items[j] == old(items[j])
  {
    for i := 0 to |s|
      invariant forall j :: 0 <= j < i ==> items[at + j] == s[j]
      invariant forall j :: 0 <= j < items.Length && !(at <= j < at + i) ==> items[j] == old(items[j])
    {
      items[at + i] := s[i];
    }
  }

  /** One item: type, length and value. */
  method PutItem(items: array<byte>, at: nat, i: Item)
    requires items.Length == MSG_MAXSIZE && at + ItemLen(i) <= MSG_MAXSIZE
    modifies items
    ensures ItemAt(items[..], at, i)
    ensures forall j :: 0 <= j < at ==> items[j] == old(items[j])
  {
    var len := |i.payload|;
    Copy(items, at + HEADER, i.payload);
    items[at], items[at + 1], items[at + 2] := i.tag, len % 256, len / 256;
    assert items[at + HEADER..at + HEADER + len] == i.payload;
    assert items[..][at + HEADER..at + HEADER + len] == i.payload;
  }

  /** Appends one item behind those built so far. */
  method AddItem(items: array<byte>, at: nat, i: Item, ghost sofar: seq<Item>)
    requires items.Length == MSG_MAXSIZE && at + ItemLen(i) <= MSG_MAXSIZE
    requires Encodes(items[..], 0, sofar) && at == Length(sofar)
    modifies items
    ensures Encodes(items[..], 0, sofar + [i])
  {
    ghost var before := items[..];
    PutItem(items, at, i);
    EncodesFrame(before, items[..], 0, sofar);
    EncodesSnoc(items[..], 0, sofar, i);
  }

  /**
   pipe_msg_build into the item area of a message: fails at the first value that is too big or not
   primitive, else the items stand for the values and the size is that of the whole message.
   */
  method Build(vs: seq<Value>, items: array<byte>) returns (r: Result<nat>)
    requires items.Length == MSG_MAXSIZE && forall v :: v in vs ==> v.Wellformed()
    modifies items
    ensures r.Failure? <==> Complaint(vs, 0, 0).Some?
    ensures r.Failure? ==> Complaint(vs, 0, 0) == Some(r.error)
    ensures r.Success? ==> r.value == 2 + Length(Items(vs)) <= 2 + MSG_MAXSIZE
    ensures r.Success? ==> Encodes(items[..], 0, Items(vs)) && Primitive(vs)
  {
    var at := 0;
    ghost var sofar: seq<Item> := [];
    for idx := 0 to |vs|
      invariant 0 <= at <= MSG_MAXSIZE && Built(vs, idx, at, sofar)
      invariant Encodes(items[..], 0, sofar)
    {
      var v := vs[idx];
      Complains(vs, idx, at, sofar);
      if at + HEADER + v.Need() >= MSG_MAXSIZE - ITEM_ALIGN {
        return Failure(TooBig(idx));
      }
      if v.Other? {
        return Failure(NotPrimitive(idx));
      }
      var item := AsFitting(v);
      AddItem(items, at, item, sofar);
      BuildStep(vs, idx, at, sofar);
      sofar := sofar + [item];
      at := at + ItemLen(item);
    }
    assert vs[..|vs|] == vs;
    return Success(2 + at);
  }

  /** The first `idx` values are acceptable and have become the items `sofar`, up to offset `at`. */
  ghost predicate Built(vs: seq<Value>, idx: nat, at: nat, sofar: seq<Item>)
    requires idx <= |vs|
  {
    && sofar == Items(vs[..idx]) && at == Length(sofar) && Primitive(vs[..idx])
    && Complaint(vs, 0, 0) == Complaint(vs[idx..], at, idx)
  }

  lemma BuildStep(vs: seq<Value>, idx: nat, at: nat, sofar: seq<Item>)
    requires idx < |vs| && Built(vs, idx, at, sofar) && vs[idx].Wellformed() && !vs[idx].Other?
    requires at + HEADER + vs[idx].Need() < MSG_MAXSIZE - ITEM_ALIGN
    ensures Built(vs, idx + 1, at + ItemLen(vs[idx].AsItem()), sofar + [vs[idx].AsItem()])
  {
    ComplaintAt(vs, idx, at);
    ItemsSnoc(vs, idx);
    LengthSnoc(sofar, vs[idx].AsItem());
  }

  lemma Complains(vs: seq<Value>, idx: nat, at: nat, sofar: seq<Item>)
    requires idx < |vs| && Built(vs, idx, at, sofar)
    ensures if at + HEADER + vs[idx].Need() >= MSG_MAXSIZE - ITEM_ALIGN then Complaint(vs, 0, 0) == Some(TooBig(idx))
            else vs[idx].Other? ==> Complaint(vs, 0, 0) == Some(NotPrimitive(idx))
  {
    ComplaintAt(vs, idx, at);
  }

  lemma ComplaintAt(vs: seq<Value>, idx: nat, at: nat)
    requires idx < |vs|
    ensures Complaint(vs[idx..], at, idx) ==
            if at + HEADER + vs[idx].Need() >= MSG_MAXSIZE - ITEM_ALIGN then Some(TooBig(idx))
            else if vs[idx].Other? then Some(NotPrimitive(idx))
            else Complaint(vs[idx + 1..], at + ItemLen(vs[idx].AsItem()), idx + 1)
  {
    assert vs[idx..][0] == vs[idx] && vs[idx..][1..] == vs[idx + 1..];
  }

  /** The item of a value, which takes no more than was reserved for it. */
  function AsFitting(v: Value): (i: Item)
    requires v.Wellformed()
    ensures i == v.AsItem() && |i.payload| <= v.Need()
  {
    v.AsItem()
  }

  lemma ItemsSnoc(vs: seq<Value>, idx: nat)
    requires idx < |vs|
    ensures Items(vs[..idx + 1]) == Items(vs[..idx]) + [vs[idx].AsItem()]
    ensures Primitive(vs[..idx]) && vs[idx].Wellformed() && !vs[idx].Other? ==> Primitive(vs[..idx + 1])
  {
    assert vs[..idx + 1] == vs[..idx] + [vs[idx]];
  }

  /** The value an item is read as. */
  function ValueOf(i: Item): Value
    requires i.tag == 1 ==> i.payload != []
  {
    if i.tag == 4 then Str(i.payload)
    else if i.tag == 3 then Number(i.payload)
    else if i.tag == 1 then Boolean(i.payload[0] != 0)
    else if i.tag == 0 then Nil
    else LightUserdata(i.payload)
  }

  lemma ValueOfItem(v: Value)
    requires v.Wellformed() && !v.Other?
    ensures var i := v.AsItem(); (i.tag == 1 ==> i.payload != []) && ValueOf(i) == v.Received()
  {
  }

  /** The values `r` have been read, the others standing from `at` to the end of the message. */
  ghost predicate Parsed(d: seq<byte>, size: nat, vs: seq<Value>, at: nat, r: seq<Value>) {
    exists rest :: ParsedBut(d, size, vs, at, r, rest)
  }

  ghost predicate ParsedBut(d: seq<byte>, size: nat, vs: seq<Value>, at: nat, r: seq<Value>, rest: seq<Item>) {
    && |r| <= |vs| && r == Received(vs)[..|r|] && rest == Items(vs)[|r|..]
    && Encodes(d, at, rest) && at + Length(rest) + 2 == size
  }

  /** The item the cursor finds at `at`. */
  function ItemFrom(d: seq<byte>, at: nat): Item
    requires at + HEADER <= |d| && at + HEADER + U16(d, at + 1) <= |d|
  {
    Item(d[at], d[at + HEADER..at + HEADER + U16(d, at + 1)])
  }

  lemma ParseStep(d: seq<byte>, size: nat, vs: seq<Value>, at: nat, r: seq<Value>)
    requires Parsed(d, size, vs, at, r) && at + 2 < size && Primitive(vs)
    ensures |r| < |vs| && at + HEADER <= |d| && at + HEADER + U16(d, at + 1) <= |d|
    ensures var i := ItemFrom(d, at);
            (i.tag == 1 ==> i.payload != []) && Parsed(d, size, vs, at + ItemLen(i), r + [ValueOf(i)])
  {
    var rest :| ParsedBut(d, size, vs, at, r, rest);
    var v := vs[|r|];
    assert rest[0] == v.AsItem() && rest[1..] == Items(vs)[|r| + 1..];
    assert v in vs;
    ValueOfItem(v);
    assert ItemFrom(d, at) == rest[0];
    assert ParsedBut(d, size, vs, at + ItemLen(rest[0]), r + [v.Received()], rest[1..]);
  }

  lemma ParseEnds(d: seq<byte>, size: nat, vs: seq<Value>, at: nat, r: seq<Value>)
    requires Parsed(d, size, vs, at, r)
    ensures at + 2 <= size && (at + 2 >= size ==> r == Received(vs))
  {
    var rest :| ParsedBut(d, size, vs, at, r, rest);
  }

  /**
   pipe_msg_parse: from any bytes that stand for `vs`, the loop recovers the values, each userdata
   as a light pointer, and ends exactly at the end of the message.
   */
  method Parse(d: seq<byte>, size: nat, ghost vs: seq<Value>) returns (r: seq<Value>)
    requires Encodes(d, 0, Items(vs)) && size == 2 + Length(Items(vs)) && Primitive(vs)
    ensures r == Received(vs) && |r| == |vs|
    ensures forall i :: 0 <= i < |vs| ==> r[i] == if vs[i].Userdata? then LightUserdata(vs[i].ptr) else vs[i]
  {
    var at := 0;
    r := [];
    assert ParsedBut(d, size, vs, 0, [], Items(vs));
    while at + 2 < size
      invariant Parsed(d, size, vs, at, r)
      decreases size - at
    {
      ParseStep(d, size, vs, at, r);
      var item := ItemFrom(d, at);
      at := at + ItemLen(item);
      r := r + [ValueOf(item)];
    }
    ParseEnds(d, size, vs, at, r);
  }

  /** struct message as stored in the pipe: the size, then the items. */
  function Wire(size: nat, items: seq<byte>): seq<byte>
    requires 2 <= size <= 2 + |items| && size < 0x1_0000
  {
    [size % 256, size / 256] + items[..size - 2]
  }

  /** Every built message is one the ring accepts: never the sentinel, never above the limit. */
  lemma BuiltIsMessage(vs: seq<Value>, items: seq<byte>)
    requires |items| == MSG_MAXSIZE && Length(Items(vs)) <= MSG_MAXSIZE
    ensures PipeRing.IsMessage(Wire(2 + Length(Items(vs)), items))
  {
  }

  /** The items survive the trip as part of the message. */
  lemma WireEncodes(vs: seq<Value>, items: seq<byte>)
    requires |items| == MSG_MAXSIZE && Encodes(items, 0, Items(vs)) && Length(Items(vs)) <= MSG_MAXSIZE
    ensures Encodes(Wire(2 + Length(Items(vs)), items)[2..], 0, Items(vs))
  {
    EncodesFrame(items, Wire(2 + Length(Items(vs)), items)[2..], 0, Items(vs));
  }
}
