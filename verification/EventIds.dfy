/**
 Event ids of src/sys_evq.c: buffers of 64, 128, 256, ... slots, the id of a fresh slot, and the way
 back from an id to the buffer and the slot with a De Bruijn logarithm.
 */
module EventIds {
  import opened Powers

  const BUF_IDX: nat := 6    // EVQ_ENV_BUF_IDX
  const BUF_MAX: nat := 24   // EVQ_ENV_BUF_MAX

  /** nmax: the slots of the `i`th buffer. */
  function BufSize(i: nat): nat { Pow2(i + BUF_IDX) }

  /** (nmax - 1) & ~63. */
  function FirstId(nmax: nat): nat
    requires nmax >= 1
  {
    (nmax - 1) / 64 * 64
  }

  /** The id of slot `n` of the `i`th buffer; see FreshIdIsMasked for the expression of the code. */
  function FreshId(i: nat, n: nat): int { n + BufSize(i) - 64 }

  lemma FreshIdIsMasked(i: nat, n: nat)
    ensures FreshId(i, n) == n + FirstId(BufSize(i)) && FreshId(i, n) >= n
  {
    BufSizes(i);
    var q := BufSize(i) / 64;
    assert BufSize(i) - 1 == 64 * (q - 1) + 63;
  }

  lemma {:induction false} BufSizes(i: nat)
    ensures BufSize(i) % 64 == 0 && BufSize(i) >= 64
  {
    if i == 0 {
      assert BufSize(0) == 64;
    } else {
      BufSizes(i - 1);
      assert BufSize(i) == 2 * BufSize(i - 1);
    }
  }

  /** The ids run on without a gap from one buffer to the next. */
  lemma IdsContiguous(i: nat, n: nat)
    requires n < BufSize(i)
    ensures if n + 1 < BufSize(i) then FreshId(i, n + 1) == FreshId(i, n) + 1
            else FreshId(i + 1, 0) == FreshId(i, n) + 1
    ensures FreshId(0, 0) == 0
  {
    assert BufSize(i + 1) == 2 * BufSize(i);
    assert BufSize(0) == 64;
  }

  /** Where the fresh slot after `n` of buffer `i` stands. */
  function NextSlot(i: nat, n: nat): (r: (nat, nat)) {
    if n + 1 >= BufSize(i) then (i + 1, 0) else (i, n + 1)
  }

  lemma NextSlotFresh(i: nat, n: nat)
    requires n < BufSize(i)
    ensures FreshId(NextSlot(i, n).0, NextSlot(i, n).1) == FreshId(i, n) + 1
  {
    IdsContiguous(i, n);
  }

  lemma NextSlotInside(i: nat, n: nat)
    requires n < BufSize(i)
    ensures NextSlot(i, n).1 < BufSize(NextSlot(i, n).0) && (n == 0 ==> NextSlot(i, n) == (i, 1))
  {
    assert BufSize(i) == 2 * Pow2(i + BUF_IDX - 1);
  }

  /** floor(log2 v). */
  function Log2(v: nat): (r: nat)
    requires v > 0
    ensures Pow2(r) <= v < Pow2(r + 1)
  {
    if v == 1 then 0 else 1 + Log2(v / 2)
  }

  lemma Log2Unique(v: nat, r: nat)
    requires v > 0 && Pow2(r) <= v < Pow2(r + 1)
    ensures Log2(v) == r
  {
    if Log2(v) < r {
      Pow2Mono(Log2(v) + 1, r);
    } else if r < Log2(v) {
      Pow2Mono(r + 1, Log2(v));
    }
  }

  /** (ev_id | 63) + 1. */
  function RoundUp(id: nat): nat { id / 64 * 64 + 64 }

  /** levq_done: buffer and offset of an id (getmaxbit being Log2, see GetMaxBitIsLog2). */
  function DecodeId(id: nat): (r: (int, int)) {
    var b := Log2(RoundUp(id));
    (b - BUF_IDX, id - FirstId(Pow2(b)))
  }

  lemma DivShift(n: nat, q: nat)
    ensures (n + 64 * q) / 64 == n / 64 + q
  {
  }

  lemma RoundUpFresh(i: nat, n: nat)
    requires n < BufSize(i)
    ensures FreshId(i, n) >= 0
    ensures Pow2(i + BUF_IDX) <= RoundUp(FreshId(i, n)) < Pow2(i + BUF_IDX + 1)
  {
    BufSizes(i);
    var q := BufSize(i) / 64;
    assert FreshId(i, n) == n + 64 * (q - 1);
    DivShift(n, q - 1);
    assert n / 64 <= q - 1;
  }

  lemma DecodeAt(id: nat, i: nat)
    requires Pow2(i + BUF_IDX) <= RoundUp(id) < Pow2(i + BUF_IDX + 1)
    ensures DecodeId(id) == (i, id - FirstId(BufSize(i)))
  {
    Log2Unique(RoundUp(id), i + BUF_IDX);
  }

  /** Decoding recovers the allocating buffer and slot, so no fresh id is ever issued twice. */
  lemma DecodeInverts(i: nat, n: nat)
    requires n < BufSize(i)
    ensures FreshId(i, n) >= 0 && DecodeId(FreshId(i, n)) == (i, n)
  {
    RoundUpFresh(i, n);
    FreshIdIsMasked(i, n);
    DecodeAt(FreshId(i, n), i);
  }

  lemma FreshIdsDistinct(i: nat, n: nat, j: nat, m: nat)
    requires n < BufSize(i) && m < BufSize(j) && (i, n) != (j, m)
    ensures FreshId(i, n) != FreshId(j, m)
  {
    DecodeInverts(i, n);
    DecodeInverts(j, m);
  }

  // ---------------------------------------------------------------- getmaxbit

  const BIT_POSITION: seq<nat> := [
    0, 9, 1, 10, 13, 21, 2, 29, 11, 14, 16, 18, 22, 25, 3, 30,
    8, 12, 20, 28, 15, 17, 24, 7, 19, 27, 23, 6, 26, 5, 4, 31]

  function Smear(v: bv32): bv32 {
    var v1 := v | (v >> 1);
    var v2 := v1 | (v1 >> 2);
    var v3 := v2 | (v2 >> 4);
    var v4 := v3 | (v3 >> 8);
    v4 | (v4 >> 16)
  }

  function TableIndex(v: bv32): (r: bv32)
    ensures r < 32
  {
    (v * 0x07C4ACDD) >> 27
  }

  /** getmaxbit. */
  function GetMaxBit(v: bv32): nat {
    BIT_POSITION[TableIndex(Smear(v)) as nat]
  }

  /** The highest bit of a nonzero word. */
  lemma TopBit(v: bv32) returns (r: bv32)
    requires v != 0
    ensures r < 32 && v >> r == 1
  {
    r := 31;
    while v >> r == 0
      invariant r < 32
      invariant r == 31 || v >> (r + 1) == 0
      decreases r
    {
      NonzeroLow(v, r);
      r := r - 1;
    }
    LastShift(v, r);
  }

  lemma NonzeroLow(v: bv32, r: bv32)
    requires v != 0 && r < 32 && v >> r == 0
    ensures r > 0
  {
  }

  lemma LastShift(v: bv32, r: bv32)
    requires r < 32 && v >> r != 0 && (r == 31 || v >> (r + 1) == 0)
    ensures v >> r == 1
  {
  }

  // ---------------------------------------------------------------- words as numbers

  predicate IsHalf(v: bv32, h: bv32) { h == v >> 1 }

  predicate IsSucc(v: bv32, w: bv32) { v != 0xFFFF_FFFF && w == v + 1 }

  function Bit(v: bv32): nat { if v & 1 == 0 then 0 else 1 }

  lemma Even(v: bv32, h: bv32)
    requires h < 0x8000_0000 && v == h << 1
    ensures v as nat == 2 * (h as nat)
  {
  }

  lemma Odd(v: bv32, h: bv32)
    requires h < 0x8000_0000 && v == (h << 1) | 1
    ensures v as nat == 2 * (h as nat) + 1
  {
  }

  /** A word as a number is twice the word shifted right, plus its lowest bit. */
  lemma Half(v: bv32, h: bv32)
    requires IsHalf(v, h)
    ensures v as nat == 2 * (h as nat) + Bit(v)
  {
    if v & 1 == 0 {
      Even(v, h);
    } else {
      Odd(v, h);
    }
  }

  /** The highest bit bounds the word as a number. */
  lemma {:induction false} TopBitBounds(v: bv32, r: bv32)
    requires r < 32 && v >> r == 1
    ensures Pow2(r as nat) <= v as nat < Pow2(r as nat + 1)
    decreases r
  {
    if r == 0 {
      ShiftNone(v);
    } else {
      var h := v >> 1;
      Half(v, h);
      ShiftOn(v, r);
      Before(r);
      TopBitBounds(h, r - 1);
    }
  }

  lemma ShiftNone(v: bv32)
    requires v >> (0 as bv32) == 1
    ensures v as nat == 1
  {
  }

  lemma ShiftOn(v: bv32, r: bv32)
    ensures 0 < r < 32 ==> (v >> 1) >> (r - 1) == v >> r
  {
  }

  lemma Before(r: bv32)
    requires 0 < r < 32
    ensures (r - 1) as nat == r as nat - 1
  {
  }

  lemma SmearTop(v: bv32, r: bv32)
    requires r < 32 && v >> r == 1
    ensures Smear(v) == 0xFFFF_FFFF >> (31 - r)
  {
    if r < 16 {
      assert Smear(v) == 0xFFFF_FFFF >> (31 - r);
    }
  }

  /** The multiplication sends each of the 32 smeared words to its own table entry. */
  lemma TableInverts(r: bv32)
    requires r < 32
    ensures BIT_POSITION[TableIndex(0xFFFF_FFFF >> (31 - r)) as nat] == r as nat
  {
  }

  /** getmaxbit is floor(log2 v) for every nonzero 32-bit word. */
  lemma GetMaxBitIsLog2(v: bv32)
    requires v != 0
    ensures GetMaxBit(v) == Log2(v as nat)
  {
    var r := TopBit(v);
    SmearTop(v, r);
    TableInverts(r);
    TopBitBounds(v, r);
    Log2Unique(v as nat, r as nat);
  }

  // ---------------------------------------------------------------- levq_done on words

  /** levq_done on a 32-bit id. */
  function DecodeWord(id: bv32): (int, int) {
    var b := GetMaxBit((id | 63) + 1);
    (b - BUF_IDX, id as int - FirstId(Pow2(b)))
  }

  lemma CarryEven(v: bv32)
    ensures v & 1 == 0 ==> (v + 1) >> 1 == v >> 1
  {
  }

  lemma CarryOdd(v: bv32)
    ensures v & 1 != 0 && v != 0xFFFF_FFFF ==> (v + 1) >> 1 == (v >> 1) + 1
  {
  }

  lemma CarryBit(v: bv32)
    ensures (v + 1) & 1 == 1 - (v & 1)
  {
  }

  lemma HalfIsLess(v: bv32)
    ensures v >> 1 != 0xFFFF_FFFF && (v & 1 != 0 ==> v >> 1 < v)
  {
  }

  lemma SuccBit(v: bv32, w: bv32)
    requires IsSucc(v, w)
    ensures Bit(w) == 1 - Bit(v)
  {
    CarryBit(v);
  }

  lemma SuccOfEven(v: bv32, w: bv32, h: bv32, k: bv32)
    requires IsSucc(v, w) && IsHalf(v, h) && IsHalf(w, k) && Bit(v) == 0
    ensures k == h
  {
    CarryEven(v);
  }

  lemma SuccOfOdd(v: bv32, w: bv32, h: bv32, k: bv32)
    requires IsSucc(v, w) && IsHalf(v, h) && IsHalf(w, k) && Bit(v) != 0
    ensures k == h + 1
  {
    CarryOdd(v);
  }

  lemma OddHalf(v: bv32, h: bv32)
    requires IsHalf(v, h) && Bit(v) != 0
    ensures h != 0xFFFF_FFFF && h < v
  {
    HalfIsLess(v);
  }

  /** What adding one does to the other bits. */
  lemma SuccCases(v: bv32, w: bv32, h: bv32, k: bv32)
    requires IsSucc(v, w) && IsHalf(v, h) && IsHalf(w, k)
    ensures Bit(w) == 1 - Bit(v)
    ensures if Bit(v) == 0 then k == h else IsSucc(h, k) && h < v
  {
    SuccBit(v, w);
    if Bit(v) != 0 {
      SuccOfOdd(v, w, h, k);
      OddHalf(v, h);
    } else {
      SuccOfEven(v, w, h, k);
    }
  }

  lemma Halves(v: bv32, w: bv32, h: bv32, k: bv32)
    requires IsHalf(v, h) && IsHalf(w, k)
    ensures v as nat == 2 * (h as nat) + Bit(v) && w as nat == 2 * (k as nat) + Bit(w)
  {
    Half(v, h);
    Half(w, k);
  }

  /** Adding one to a word adds one to the number. */
  lemma {:induction false} Successor(v: bv32, w: bv32)
    requires IsSucc(v, w)
    ensures w as nat == v as nat + 1
    decreases v
  {
    var h, k := v >> 1, w >> 1;
    SuccCases(v, w, h, k);
    Halves(v, w, h, k);
    if Bit(v) != 0 {
      Successor(h, k);
    }
  }

  lemma SixHalves(v: bv32, a: bv32, b: bv32, c: bv32, d: bv32, e: bv32, q: bv32)
    requires IsHalf(v, a) && IsHalf(a, b) && IsHalf(b, c) && IsHalf(c, d) && IsHalf(d, e) && IsHalf(e, q)
    ensures q as nat == v as nat / 64
  {
    Half(v, a);
    Half(a, b);
    Half(b, c);
    Half(c, d);
    Half(d, e);
    Half(e, q);
  }

  lemma Shifts(v: bv32)
    ensures IsHalf(v, v >> 1) && IsHalf(v >> 1, v >> 2) && IsHalf(v >> 2, v >> 3) && IsHalf(v >> 3, v >> 4)
    ensures IsHalf(v >> 4, v >> 5) && IsHalf(v >> 5, v >> 6)
  {
  }

  /** Shifting six bits out divides by 64. */
  lemma Sixth(v: bv32)
    ensures (v >> 6) as nat == v as nat / 64
  {
    Shifts(v);
    SixHalves(v, v >> 1, v >> 2, v >> 3, v >> 4, v >> 5, v >> 6);
  }

  lemma LowBitsSet(v: bv32)
    ensures (v | 63) as nat == 64 * ((v >> 6) as nat) + 63
  {
  }

  lemma NotAllOnes(u: bv32)
    requires u as nat < 0x400_0000
    ensures u != 0xFFFF_FFFF
  {
  }

  lemma SetLow(id: bv32)
    ensures (id | 63) as nat == 64 * (id as nat / 64) + 63
  {
    Sixth(id);
    LowBitsSet(id);
  }

  /** (ev_id | 63) + 1 as a word is RoundUp as a number. */
  lemma RoundUpWord(id: nat, u: bv32)
    requires id < 0x200_0000 && u as nat == 64 * (id / 64) + 63
    ensures (u + 1) as nat == RoundUp(id)
  {
    NotAllOnes(u);
    Successor(u, u + 1);
  }

  /** The decoding of levq_done recovers buffer and slot from every id that was issued. */
  lemma DecodeWordInverts(i: nat, n: nat, id: bv32)
    requires i + BUF_IDX <= BUF_MAX && n < BufSize(i) && id as int == FreshId(i, n)
    ensures DecodeWord(id) == (i, n)
  {
    RoundUpFresh(i, n);
    IdsBelow(i, n);
    SetLow(id);
    RoundUpWord(id as nat, id | 63);
    DecodedBit((id | 63) + 1, i);
    FreshIdIsMasked(i, n);
  }

  lemma DecodedBit(w: bv32, i: nat)
    requires Pow2(i + BUF_IDX) <= w as nat < Pow2(i + BUF_IDX + 1)
    ensures GetMaxBit(w) == i + BUF_IDX
  {
    NotZero(w);
    GetMaxBitIsLog2(w);
    Log2Unique(w as nat, i + BUF_IDX);
  }

  lemma NotZero(w: bv32)
    requires w as nat > 0
    ensures w != 0
  {
  }

  lemma IdsBelow(i: nat, n: nat)
    requires i + BUF_IDX <= BUF_MAX && n < BufSize(i)
    ensures FreshId(i, n) < 0x200_0000
  {
    Pow2Mono(i + BUF_IDX + 1, BUF_MAX + 1);
    assert Pow2(10) == 1024;
    assert Pow2(20) == 0x10_0000;
  }
}
