/** Bytes, sequences of bytes and the few facts about them that several modules share. */
module Bytes {

  type byte = b: int | 0 <= b < 256

  datatype Option<+T> = None | Some(value: T)

  /** The elements of all parts, in order. */
  function Flat<T>(parts: seq<seq<T>>): (r: seq<T>) {
    if parts == [] then [] else parts[0] + Flat(parts[1..])
  }

  lemma {:induction false} FlatAppend<T>(a: seq<seq<T>>, b: seq<seq<T>>)
    ensures Flat(a + b) == Flat(a) + Flat(b)
  {
    if a == [] {
      assert a + b == b;
    } else {
      assert (a + b)[1..] == a[1..] + b;
      FlatAppend(a[1..], b);
    }
  }

  lemma FlatSingle<T>(x: seq<T>)
    ensures Flat([x]) == x
  {
    assert [x][1..] == [];
  }

  lemma FlatSnoc<T>(a: seq<seq<T>>, x: seq<T>)
    ensures Flat(a + [x]) == Flat(a) + x
  {
    FlatAppend(a, [x]);
    FlatSingle(x);
  }

  /** Appending to the last part appends to the whole. */
  lemma FlatExtendLast<T>(parts: seq<seq<T>>, x: T)
    requires parts != []
    ensures var n := |parts| - 1;
            Flat(parts[n := parts[n] + [x]]) == Flat(parts) + [x]
  {
    var n := |parts| - 1;
    assert parts == parts[..n] + [parts[n]];
    assert parts[n := parts[n] + [x]] == parts[..n] + [parts[n] + [x]];
    FlatSnoc(parts[..n], parts[n]);
    FlatSnoc(parts[..n], parts[n] + [x]);
  }

  /** `d` with `m` written over it at offset `at` (memcpy). */
  function Splice<T>(d: seq<T>, at: nat, m: seq<T>): (r: seq<T>)
    requires at + |m| <= |d|
    ensures |r| == |d|
  {
    d[..at] + m + d[at + |m|..]
  }

  lemma SpliceKeeps<T>(d: seq<T>, at: nat, m: seq<T>)
    requires at + |m| <= |d|
    ensures var r := Splice(d, at, m);
            && r[at..at + |m|] == m
            && (forall i, j :: 0 <= i <= j <= at ==> r[i..j] == d[i..j])
            && forall i, j :: at + |m| <= i <= j <= |d| ==> r[i..j] == d[i..j]
  {
  }

  /** The little-endian 16-bit number at offset `at`. */
  function U16(d: seq<byte>, at: nat): (r: nat)
    requires at + 2 <= |d|
    ensures r < 0x1_0000
  {
    d[at] as int + 256 * (d[at + 1] as int)
  }
}
