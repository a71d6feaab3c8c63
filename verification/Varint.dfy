/** Variable-length integers (DWARF 5, section 7.6, unsigned LEB128) and the zigzag map for signed ones. */
module Varint {
  import opened Words

  /** What a reader makes of a buffer: a value and the bytes after it, or a refusal. */
  datatype Parsed<+T> = Malformed | Got(value: T, rest: seq<Byte>)

  const MAX_SHIFT := 63

  // ----- zigzag -------------------------------------------------------------------------------

  function Zigzag(v: I64): U64 { if v >= 0 then 2 * v else -2 * v - 1 }

  function Unzigzag(u: U64): I64 { if u % 2 == 0 then u / 2 else -(u / 2) - 1 }

  lemma ZigzagBijective(v: I64, u: U64)
    ensures Unzigzag(Zigzag(v)) == v && Zigzag(Unzigzag(u)) == u
  {
  }

  /** The shift-and-xor formulas on 64-bit registers are that map and its inverse: doubling for a clear
      sign bit, and the complement of doubling for a set one, whose arithmetic shift is all ones. */
  lemma ZigzagBitsOfPositive(v: bv64)
    requires v & 0x8000_0000_0000_0000 == 0
    ensures var z := (v << 1) ^ 0; z == v + v && (z >> 1) ^ (!(z & 1) + 1) == v
  {
  }

  lemma ZigzagBitsOfNegative(v: bv64)
    requires v & 0x8000_0000_0000_0000 != 0
    ensures var z := (v << 1) ^ 0xFFFF_FFFF_FFFF_FFFF; z == !(v + v) && (z >> 1) ^ (!(z & 1) + 1) == v
  {
  }

  // ----- writing ------------------------------------------------------------------------------

  function PutVarint(v: U64): (bs: seq<Byte>)
    ensures bs != []
  {
    if v < 128 then [v] else [v % 128 + 128] + PutVarint(v / 128)
  }

  /** Seven bits per byte. */
  lemma {:induction false} PutVarintSize(v: U64, n: nat)
    requires v < Pow2(7 * n) && n > 0
    ensures |PutVarint(v)| <= n
    decreases n
  {
    if v >= 128 {
      Pow2Words();
      if n == 1 { assert false; }
      Pow2Add(7, 7 * n - 7);
      PutVarintSize(v / 128, n - 1);
    }
  }

  lemma VarintAtMostTen(v: U64)
    ensures |PutVarint(v)| <= 10
  {
    Pow2Words();
    Pow2Grows(64, 70);
    PutVarintSize(v, 10);
  }

  method WriteVarint(value: U64, before: seq<Byte>) returns (out: seq<Byte>)
    ensures out == before + PutVarint(value)
  {
    var v := value;
    out := before;
    while v >= 0x80
      invariant 0 <= v < TWO_64 && out + PutVarint(v) == before + PutVarint(value)
    {
      assert out + PutVarint(v) == (out + [v % 128 + 128]) + PutVarint(v / 128);
      out := out + [v % 128 + 128];
      v := v / 128;
    }
    out := out + [v];
  }

  // ----- reading ------------------------------------------------------------------------------

  function Shifted(x: int, shift: nat): int { x * Pow2(shift) }

  /** Continues a varint whose lower `shift` bits are `acc`.  The bits of a byte that do not fit in the
      register are lost; a byte past the sixty-fourth bit is refused. */
  function GetFrom(bs: seq<Byte>, shift: nat, acc: U64): (r: Parsed<U64>)
    ensures r.Got? ==> |r.rest| < |bs| && r.rest == bs[|bs| - |r.rest|..]
  {
    if bs == [] then Malformed
    else
      var acc' := ToU64(acc + Shifted(bs[0] % 128, shift));
      if bs[0] < 128 then Got(acc', bs[1..])
      else if shift + 7 > MAX_SHIFT then Malformed
      else GetFrom(bs[1..], shift + 7, acc')
  }

  function GetVarint(bs: seq<Byte>): (r: Parsed<U64>)
    ensures r.Got? ==> |r.rest| < |bs| && r.rest == bs[|bs| - |r.rest|..]
  {
    GetFrom(bs, 0, 0)
  }

  lemma NoBytes(data: seq<Byte>)
    ensures forall shift: nat, acc: U64 :: GetFrom(data[|data|..], shift, acc) == Malformed
  {
  }

  lemma OneByte(data: seq<Byte>, p: nat, shift: nat, acc: U64)
    requires p < |data|
    ensures var next := ToU64(acc + Shifted(data[p] % 128, shift));
            GetFrom(data[p..], shift, acc) ==
              if data[p] < 128 then Got(next, data[p + 1..])
              else if shift + 7 > MAX_SHIFT then Malformed
              else GetFrom(data[p + 1..], shift + 7, next)
  {
    hide ToU64, Shifted;
    assert data[p..][1..] == data[p + 1..];
  }

  /** Reads a varint at `start`; `p` is the position after it. */
  method ReadVarint(data: seq<Byte>, start: nat) returns (ok: bool, value: U64, p: nat)
    requires start <= |data|
    ensures p <= |data|
    ensures (if ok then Got(value, data[p..]) else Malformed) == GetVarint(data[start..])
  {
    hide Shifted, ToU64, GetFrom;
    NoBytes(data);
    ghost var want := GetVarint(data[start..]);
    value, p := 0, start;
    var shift := 0;
    while p < |data|
      invariant start <= p <= |data| && 0 <= shift
      invariant GetFrom(data[p..], shift, value) == want
    {
      var byte := data[p];
      OneByte(data, p, shift, value);
      p := p + 1;
      value := ToU64(value + Shifted(byte % 128, shift));
      if byte < 128 { return true, value, p; }
      shift := shift + 7;
      if shift > MAX_SHIFT { return false, value, p; }
    }
    return false, value, p;
  }

  // ----- round trip ---------------------------------------------------------------------------

  lemma LowSevenBits(v: nat, q: nat, r: nat, s: nat, s': nat, acc: nat)
    requires v == 128 * q + r && s' == s * 128 && s > 0
    ensures acc + v * s == (acc + r * s) + q * s'
    ensures r * s <= v * s && v <= v * s
  {
    assert v * s == (128 * q) * s + r * s;
    assert (128 * q) * s == q * (s * 128);
    MulOrder(r, v, s);
    MulOrder(1, s, v);
  }

  /** A value that needs more bytes leaves room for them. */
  lemma RoomForNext(v: U64, shift: nat, acc: U64)
    requires v >= 128 && acc + Shifted(v, shift) < TWO_64
    ensures shift + 7 <= MAX_SHIFT
  {
    Pow2Words();
    Pow2Add(shift, 7);
    MulOrder(128, v, Pow2(shift));
    if shift + 7 > MAX_SHIFT {
      Pow2Grows(64, shift + 7);
    }
  }

  lemma NextSevenBits(v: U64, shift: nat, acc: U64)
    requires acc + Shifted(v, shift) < TWO_64
    ensures 0 <= acc + Shifted(v % 128, shift) < TWO_64
    ensures ToU64(acc + Shifted(v % 128, shift)) == acc + Shifted(v % 128, shift)
    ensures acc + Shifted(v, shift) == (acc + Shifted(v % 128, shift)) + Shifted(v / 128, shift + 7)
    ensures v < 128 ==> acc + Shifted(v % 128, shift) == acc + Shifted(v, shift)
  {
    Pow2Words();
    Pow2Add(shift, 7);
    LowSevenBits(v, v / 128, v % 128, Pow2(shift), Pow2(shift + 7), acc);
    MulOrder(0, v % 128, Pow2(shift));
  }

  lemma {:induction false} VarintRoundTripFrom(v: U64, shift: nat, acc: U64, t: seq<Byte>)
    requires acc + Shifted(v, shift) < TWO_64
    ensures 0 <= acc + Shifted(v, shift)
    ensures GetFrom(PutVarint(v) + t, shift, acc) == Got(acc + Shifted(v, shift), t)
  {
    hide Shifted, ToU64;
    var bs := PutVarint(v) + t;
    NextSevenBits(v, shift, acc);
    if v < 128 {
      assert bs[0] == v && bs[1..] == t;
    } else {
      RoomForNext(v, shift, acc);
      PutMore(v, t);
      VarintRoundTripFrom(v / 128, shift + 7, acc + Shifted(v % 128, shift), t);
    }
  }

  lemma PutMore(v: U64, t: seq<Byte>)
    requires v >= 128
    ensures var bs := PutVarint(v) + t;
            bs[0] >= 128 && bs[0] % 128 == v % 128 && bs[1..] == PutVarint(v / 128) + t
  {
  }

  /** Reading what was written returns the value and exactly the bytes after it. */
  lemma VarintRoundTrip(v: U64, t: seq<Byte>)
    ensures GetVarint(PutVarint(v) + t) == Got(v, t)
  {
    VarintRoundTripFrom(v, 0, 0, t);
  }

  lemma {:induction false} GetFromExtends(bs: seq<Byte>, shift: nat, acc: U64, t: seq<Byte>)
    requires GetFrom(bs, shift, acc).Got?
    ensures GetFrom(bs + t, shift, acc) == Got(GetFrom(bs, shift, acc).value, GetFrom(bs, shift, acc).rest + t)
  {
    assert (bs + t)[1..] == bs[1..] + t;
    if bs[0] >= 128 {
      GetFromExtends(bs[1..], shift + 7, ToU64(acc + Shifted(bs[0] % 128, shift)), t);
    }
  }

  /** More bytes at the end never change what is read. */
  lemma GetVarintExtends(bs: seq<Byte>, t: seq<Byte>)
    requires GetVarint(bs).Got?
    ensures GetVarint(bs + t) == Got(GetVarint(bs).value, GetVarint(bs).rest + t)
  {
    GetFromExtends(bs, 0, 0, t);
  }

  /** An over-long encoding is accepted as well: the reader is not injective. */
  lemma OverLongAccepted()
    ensures GetVarint([0x80, 0x00]) == Got(0, []) == GetVarint([0x00])
  {
    assert [0x80, 0x00][1..] == [0x00];
    assert [0x00][1..] == [];
  }
}
