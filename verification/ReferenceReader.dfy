/** The format's second reader, written over unbounded integers, and exactly when it reads what the
    first one reads. */
module ReferenceReader {
  import opened Types
  import opened Words
  import opened Varint
  import opened Packing
  import opened Codec
  import opened CodecProperties

  // ----- varints ------------------------------------------------------------------------------

  /** Like the first reader, but no bit of a byte is lost. */
  function ReadFrom(bs: seq<Byte>, shift: nat, acc: nat): (r: Parsed<nat>)
    ensures r.Got? ==> |r.rest| < |bs|
  {
    if bs == [] then Malformed
    else
      MulOrder(0, bs[0] % 128, Pow2(shift));
      var acc' := acc + Shifted(bs[0] % 128, shift);
      if bs[0] < 128 then Got(acc', bs[1..])
      else if shift + 7 > MAX_SHIFT then Malformed
      else ReadFrom(bs[1..], shift + 7, acc')
  }

  function ReadInt(bs: seq<Byte>): Parsed<nat> { ReadFrom(bs, 0, 0) }

  lemma LowBits(b: Byte, shift: nat)
    ensures Shifted(b % 128, shift) >= 0
  {
    MulOrder(0, b % 128, Pow2(shift));
  }

  /** Both readers stop at the same byte; the first one keeps the low sixty-four bits. */
  lemma {:induction false} ReadFromAgrees(bs: seq<Byte>, shift: nat, acc: nat)
    ensures match ReadFrom(bs, shift, acc)
            case Malformed => GetFrom(bs, shift, ToU64(acc)).Malformed?
            case Got(v, rest) => GetFrom(bs, shift, ToU64(acc)) == Got(ToU64(v), rest)
  {
    hide Shifted, ToU64;
    if bs != [] {
      var low := Shifted(bs[0] % 128, shift);
      LowBits(bs[0], shift);
      WrapAdd(low, acc);
      if bs[0] >= 128 && shift + 7 <= MAX_SHIFT {
        ReadFromAgrees(bs[1..], shift + 7, acc + low);
      }
    }
  }

  lemma ReadAgrees(bs: seq<Byte>)
    ensures match ReadInt(bs)
            case Malformed => GetVarint(bs).Malformed?
            case Got(v, rest) => GetVarint(bs) == Got(ToU64(v), rest)
  {
    hide ReadFrom, GetFrom;
    ReadFromAgrees(bs, 0, 0);
  }

  lemma {:induction false} ReadWrittenFrom(v: U64, shift: nat, acc: U64, t: seq<Byte>)
    requires acc + Shifted(v, shift) < TWO_64
    ensures 0 <= acc + Shifted(v, shift)
    ensures ReadFrom(PutVarint(v) + t, shift, acc) == Got(acc + Shifted(v, shift), t)
  {
    hide Shifted;
    var bs := PutVarint(v) + t;
    NextSevenBits(v, shift, acc);
    if v < 128 {
      assert bs[0] == v && bs[1..] == t;
    } else {
      RoomForNext(v, shift, acc);
      PutMore(v, t);
      ReadWrittenFrom(v / 128, shift + 7, acc + Shifted(v % 128, shift), t);
    }
  }

  lemma ReadWritten(v: U64, t: seq<Byte>)
    ensures ReadInt(PutVarint(v) + t) == Got(v, t)
  {
    ReadWrittenFrom(v, 0, 0, t);
  }

  function UnzigzagInt(v: nat): int { if v % 2 == 0 then v / 2 else -(v / 2) - 1 }

  /** What a value has above the sixty-fourth bit. */
  function Excess(v: nat): nat { v / 0x1_0000_0000_0000_0000 }

  function SignedExcess(v: nat): int { if v % 2 == 0 then Excess(v) else 0 - Excess(v) }

  lemma UnzigzagExcess(v: nat)
    ensures UnzigzagInt(v) == Unzigzag(ToU64(v)) + TWO_63 * SignedExcess(v)
  {
  }

  // ----- values -------------------------------------------------------------------------------

  /** Adds the whole step and masks once. */
  function Advanced(prev: int, residual: int, min: int, scale: int): I64 {
    ToI64(ToU64(prev + Times(residual + min, scale)))
  }

  function AdvancedAll(prev: int, residuals: seq<int>, min: int, scale: int): (xs: seq<I64>)
    ensures |xs| == |residuals|
  {
    if residuals == [] then []
    else
      var before := AdvancedAll(prev, residuals[..|residuals| - 1], min, scale);
      before + [Advanced(LastIn(prev, before), residuals[|residuals| - 1], min, scale)]
  }

  function LastIn(prev: int, xs: seq<I64>): int { if xs == [] then prev else xs[|xs| - 1] }

  /** Whatever wraps, the first reader's step by step arithmetic restores the same value. */
  lemma AdvancedIsRestored(prev: I64, residual: int, min: I64, scale: U64)
    ensures Advanced(prev, residual, min, scale) == Restored(prev, residual, min, scale)
  {
    hide ToU64, ToI64, Times;
    var delta := residual + min;
    WrapAdd(residual, min);
    UnsignedRoundTrip(ToU64(delta));
    WrapMul(delta, scale);
    TimesOne(delta);
    UnsignedRoundTrip(ToU64(Times(delta, scale)));
    SumOfRegisters(prev, Times(delta, scale));
  }

  /** Whether the part of a block minimum above the sixty-fourth bit vanishes once it is scaled. */
  predicate Absorbed(min: nat, scale: nat) { Times(Excess(min), scale) % 2 == 0 }

  /** Half a turn of the register shows, a whole one does not. */
  lemma HalfTurns(x: int, j: int)
    ensures ToU64(x + TWO_63 * j) == ToU64(x) <==> j % 2 == 0
  {
    var u, k := ToU64(x), x / TWO_64;
    var half := j / 2;
    if j % 2 == 0 {
      WrapUnique(x + TWO_63 * j, u, k + half);
    } else if u < TWO_63 {
      WrapUnique(x + TWO_63 * j, u + TWO_63, k + half);
    } else {
      WrapUnique(x + TWO_63 * j, u - TWO_63, k + half + 1);
    }
  }

  lemma WrapScale(x: int, s: int)
    ensures ToU64(Times(x, ToU64(s))) == ToU64(Times(x, s))
  {
    TimesCommutes(x, s);
    TimesCommutes(x, ToU64(s));
    hide Times, ToU64;
    WrapMul(s, x);
  }

  lemma TimesCommutes(a: int, b: int)
    ensures Times(a, b) == Times(b, a)
  {
  }

  lemma TimesExcess(a: int, e: int, scale: int)
    ensures Times(a + TWO_63 * e, scale) == Times(a, scale) + TWO_63 * Times(e, scale)
  {
  }

  lemma SignedParity(v: nat, scale: int)
    ensures Times(SignedExcess(v), scale) % 2 == Times(Excess(v), scale) % 2
  {
    var k := Excess(v);
    assert (-k) * scale == -(k * scale);
  }

  lemma SameSigned(a: U64, b: U64)
    ensures ToI64(a) == ToI64(b) <==> a == b
  {
  }

  /** One value: the readers agree if and only if the minimum's excess vanishes. */
  lemma ValueAgrees(prev: I64, residual: int, min: nat, scale: nat)
    ensures Absorbed(min, scale) <==>
              Advanced(prev, residual, UnzigzagInt(min), scale) == Restored(prev, residual, Unzigzag(ToU64(min)), ToU64(scale))
  {
    hide ToU64, ToI64, Times, Unzigzag, UnzigzagInt, Excess, SignedExcess, Restored;
    var m, e := Unzigzag(ToU64(min)), SignedExcess(min);
    AdvancedIsRestored(prev, residual, m, ToU64(scale));
    WrapScale(residual + m, scale);
    WrapAdd(prev, Times(residual + m, ToU64(scale)));
    WrapAdd(prev, Times(residual + m, scale));
    UnzigzagExcess(min);
    TimesExcess(residual + m, e, scale);
    HalfTurns(prev + Times(residual + m, scale), Times(e, scale));
    SignedParity(min, scale);
    SameSigned(ToU64(prev + Times(residual + UnzigzagInt(min), scale)), ToU64(prev + Times(residual + m, scale)));
  }

  lemma {:induction false} ValuesAgree(prev: I64, residuals: seq<int>, min: nat, scale: nat)
    requires Absorbed(min, scale)
    ensures AdvancedAll(prev, residuals, UnzigzagInt(min), scale)
         == RestoredAll(prev, residuals, Unzigzag(ToU64(min)), ToU64(scale))
  {
    hide Advanced, Restored, Absorbed, ToU64, Unzigzag, UnzigzagInt;
    if residuals != [] {
      var n := |residuals| - 1;
      ValuesAgree(prev, residuals[..n], min, scale);
      var before := AdvancedAll(prev, residuals[..n], UnzigzagInt(min), scale);
      ValueAgrees(LastOf(prev, before), residuals[n], min, scale);
    }
  }

  lemma {:induction false} FirstValues(prev: I64, residuals: seq<int>, min: int, scale: int, min': I64, scale': U64)
    requires residuals != []
    ensures AdvancedAll(prev, residuals, min, scale)[0] == Advanced(prev, residuals[0], min, scale)
    ensures RestoredAll(prev, residuals, min', scale')[0] == Restored(prev, residuals[0], min', scale')
  {
    hide Advanced, Restored;
    var n := |residuals| - 1;
    if n > 0 {
      FirstValues(prev, residuals[..n], min, scale, min', scale');
    } else {
      assert residuals[..0] == [];
    }
  }

  // ----- blocks -------------------------------------------------------------------------------

  function ReadBlock(bs: seq<Byte>, n: nat, scale: nat, prev: int): (r: Parsed<seq<I64>>)
    ensures r.Got? ==> |r.value| == n
  {
    match ReadInt(bs)
    case Malformed => Malformed
    case Got(min, afterMin) =>
      if afterMin == [] || afterMin[0] > 64 || MAX_PACKED_BITS < afterMin[0] < 64 then Malformed
      else match Unpacked(afterMin[1..], n, afterMin[0])
        case Malformed => Malformed
        case Got(residuals, rest) => Got(AdvancedAll(prev, residuals, UnzigzagInt(min), scale), rest)
  }

  function ReadBlocks(bs: seq<Byte>, left: nat, scale: nat, prev: int): (r: Parsed<seq<I64>>)
    ensures r.Got? ==> |r.value| == left
    decreases left
  {
    if left == 0 then Got([], bs)
    else
      var n := Min(BLOCK, left);
      match ReadBlock(bs, n, scale, prev)
      case Malformed => Malformed
      case Got(xs, rest) =>
        match ReadBlocks(rest, left - n, scale, LastIn(prev, xs))
        case Malformed => Malformed
        case Got(ys, end) => Got(xs + ys, end)
  }

  /** Acceptance and the bytes left over do not depend on the values. */
  predicate SameExtent(a: Parsed<seq<I64>>, b: Parsed<seq<I64>>) {
    a.Got? == b.Got? && (a.Got? ==> a.rest == b.rest)
  }

  lemma BlockExtent(bs: seq<Byte>, n: nat, scale: nat, prev: int, prev': I64)
    ensures SameExtent(ReadBlock(bs, n, scale, prev), DecodeBlock(bs, n, ToU64(scale), prev'))
  {
    hide ReadInt, GetVarint, Unpacked, ToU64, Unzigzag, UnzigzagInt, AdvancedAll, RestoredAll;
    ReadAgrees(bs);
  }

  lemma {:induction false} BlocksExtent(bs: seq<Byte>, left: nat, scale: nat, prev: int, prev': I64)
    ensures SameExtent(ReadBlocks(bs, left, scale, prev), DecodeBlocks(bs, left, ToU64(scale), prev'))
    decreases left
  {
    hide ReadBlock, DecodeBlock, ToU64;
    if left > 0 {
      var n := Min(BLOCK, left);
      BlockExtent(bs, n, scale, prev, prev');
      var a, b := ReadBlock(bs, n, scale, prev), DecodeBlock(bs, n, ToU64(scale), prev');
      if a.Got? {
        BlocksExtent(a.rest, left - n, scale, LastIn(prev, a.value), LastOf(prev', b.value));
      }
    }
  }

  lemma BlockAgrees(bs: seq<Byte>, n: nat, scale: nat, prev: I64)
    requires n > 0 && ReadBlock(bs, n, scale, prev).Got?
    ensures ReadInt(bs).Got?
    ensures ReadBlock(bs, n, scale, prev) == DecodeBlock(bs, n, ToU64(scale), prev) <==> Absorbed(ReadInt(bs).value, scale)
  {
    hide ReadInt, GetVarint, Unpacked, ToU64, Unzigzag, UnzigzagInt, AdvancedAll, RestoredAll, Absorbed, Advanced, Restored;
    ReadAgrees(bs);
    var min, afterMin := ReadInt(bs).value, ReadInt(bs).rest;
    var residuals := Unpacked(afterMin[1..], n, afterMin[0]).value;
    if Absorbed(min, scale) {
      ValuesAgree(prev, residuals, min, scale);
    } else {
      FirstValues(prev, residuals, UnzigzagInt(min), scale, Unzigzag(ToU64(min)), ToU64(scale));
      ValueAgrees(prev, residuals[0], min, scale);
    }
  }

  /** Every block's minimum reads the same once scaled. */
  predicate Absorbs(bs: seq<Byte>, left: nat, scale: nat)
    decreases left
  {
    left == 0 ||
    var n := Min(BLOCK, left);
    var block := ReadBlock(bs, n, scale, 0);
    block.Got? ==> Absorbed(ReadInt(bs).value, scale) && Absorbs(block.rest, left - n, scale)
  }

  lemma {:induction false} BlocksAgree(bs: seq<Byte>, left: nat, scale: nat, prev: I64)
    requires ReadBlocks(bs, left, scale, prev).Got?
    ensures ReadBlocks(bs, left, scale, prev) == DecodeBlocks(bs, left, ToU64(scale), prev) <==> Absorbs(bs, left, scale)
    decreases left
  {
    hide ReadBlock, DecodeBlock, ToU64, Absorbed, ReadInt;
    if left > 0 {
      var n := Min(BLOCK, left);
      var a, b := ReadBlock(bs, n, scale, prev), DecodeBlock(bs, n, ToU64(scale), prev);
      BlocksExtent(bs, left, scale, prev, prev);
      BlockExtent(bs, n, scale, prev, prev);
      BlockExtent(bs, n, scale, 0, prev);
      BlockAgrees(bs, n, scale, prev);
      var tail, tail' := ReadBlocks(a.rest, left - n, scale, LastIn(prev, a.value)), DecodeBlocks(b.rest, left - n, ToU64(scale), LastOf(prev, b.value));
      SameParts(a.value, b.value, tail.value, tail'.value);
      if a == b {
        BlocksAgree(a.rest, left - n, scale, LastOf(prev, a.value));
      }
    }
  }

  lemma SameParts(a: seq<int>, b: seq<int>, c: seq<int>, d: seq<int>)
    requires |a| == |b|
    ensures a + c == b + d <==> a == b && c == d
  {
    if a + c == b + d {
      assert (a + c)[..|a|] == a && (b + d)[..|b|] == b;
      assert (a + c)[|a|..] == c && (b + d)[|b|..] == d;
    }
  }

  // ----- columns ------------------------------------------------------------------------------

  function ReferenceDecode(bs: seq<Byte>): (r: Parsed<seq<int>>)
    ensures r.Got? ==> ReadInt(bs).Got? && |r.value| == ReadInt(bs).value
  {
    match ReadInt(bs)
    case Malformed => Malformed
    case Got(count, afterCount) =>
      if count == 0 then Got([], afterCount)
      else match ReadInt(afterCount)
        case Malformed => Malformed
        case Got(first, afterFirst) =>
          match ReadInt(afterFirst)
          case Malformed => Malformed
          case Got(scale, body) =>
            if scale == 0 then Malformed
            else match ReadBlocks(body, count - 1, scale, UnzigzagInt(first))
              case Malformed => Malformed
              case Got(xs, rest) => Got([UnzigzagInt(first)] + xs, rest)
  }

  /** The count and the first value fit their registers, and every block minimum reads the same once scaled. */
  predicate ReadsAlike(bs: seq<Byte>) {
    var count := ReadInt(bs);
    && count.Got? && count.value < TWO_64
    && (count.value > 0 ==>
          var first := ReadInt(count.rest);
          && first.Got? && first.value < TWO_64
          && var scale := ReadInt(first.rest);
             scale.Got? && Absorbs(scale.rest, count.value - 1, scale.value))
  }

  lemma Fits(v: nat)
    ensures v < TWO_64 <==> ToU64(v) == v
    ensures v < TWO_64 ==> UnzigzagInt(v) == Unzigzag(v)
    ensures v < TWO_64 <==> -TWO_63 <= UnzigzagInt(v) < TWO_63
  {
  }

  /** Of a column the first reader accepts, the second one makes the same if and only if the varints
      read alike. */
  lemma ReferenceAgrees(bs: seq<Byte>)
    requires Decode(bs).Got?
    ensures ReferenceDecode(bs) == Decode(bs) <==> ReadsAlike(bs)
  {
    hide ReadInt, GetVarint, ReadBlocks, DecodeBlocks, Absorbs, ToU64, UnzigzagInt, Unzigzag;
    ReadAgrees(bs);
    var count := ReadInt(bs);
    Fits(count.value);
    if count.value >= TWO_64 {
      OtherCount(bs);
    } else if count.value > 0 {
      ReadAgrees(count.rest);
      var first := ReadInt(count.rest);
      Fits(first.value);
      ReadAgrees(first.rest);
      TailAgrees(bs);
    }
  }

  /** A count that does not fit its register is not the number of values the first reader returns. */
  lemma OtherCount(bs: seq<Byte>)
    requires Decode(bs).Got? && ReadInt(bs).Got? && ReadInt(bs).value >= TWO_64
    ensures ReferenceDecode(bs) != Decode(bs)
  {
    hide ReadInt, GetVarint, ReferenceDecode, Decode;
    ReadAgrees(bs);
    DecodeConsumes(bs);
  }

  lemma TailAgrees(bs: seq<Byte>)
    requires Decode(bs).Got? && ReadInt(bs).Got? && 0 < ReadInt(bs).value < TWO_64
    requires ReadInt(ReadInt(bs).rest).Got? && ReadInt(ReadInt(ReadInt(bs).rest).rest).Got?
    ensures ReferenceDecode(bs) == Decode(bs) <==> ReadsAlike(bs)
  {
    hide ReadInt, GetVarint, ReadBlocks, DecodeBlocks, Absorbs, ToU64, UnzigzagInt, Unzigzag;
    var count := ReadInt(bs);
    var first := ReadInt(count.rest);
    var scale := ReadInt(first.rest);
    ReadAgrees(bs);
    ReadAgrees(count.rest);
    ReadAgrees(first.rest);
    Fits(count.value);
    Fits(first.value);
    Fits(0);
    var left := count.value - 1;
    BlocksExtent(scale.rest, left, scale.value, UnzigzagInt(first.value), Unzigzag(ToU64(first.value)));
    var xs, ys := ReadBlocks(scale.rest, left, scale.value, UnzigzagInt(first.value)).value,
                  DecodeBlocks(scale.rest, left, ToU64(scale.value), Unzigzag(ToU64(first.value))).value;
    SameParts([UnzigzagInt(first.value)], [Unzigzag(ToU64(first.value))], xs, ys);
    if first.value < TWO_64 {
      BlocksAgree(scale.rest, left, scale.value, Unzigzag(first.value));
    }
  }

  /** Both readers refuse the same bytes when the count fits its register and the scale is not a nonzero
      multiple of its modulus. */
  lemma RefusedAlike(bs: seq<Byte>)
    requires ReadInt(bs).Got? ==> ReadInt(bs).value < TWO_64
    requires ReadInt(bs).Got? && ReadInt(ReadInt(bs).rest).Got? && ReadInt(ReadInt(ReadInt(bs).rest).rest).Got? ==>
               var scale := ReadInt(ReadInt(ReadInt(bs).rest).rest).value; ToU64(scale) == 0 ==> scale == 0
    ensures ReferenceDecode(bs).Malformed? <==> Decode(bs).Malformed?
  {
    hide ReadInt, GetVarint, ReadBlocks, DecodeBlocks, ToU64, UnzigzagInt, Unzigzag;
    ReadAgrees(bs);
    var count := ReadInt(bs);
    if count.Got? {
      Fits(count.value);
      Fits(0);
      ReadAgrees(count.rest);
      var first := ReadInt(count.rest);
      if first.Got? {
        ReadAgrees(first.rest);
        var scale := ReadInt(first.rest);
        if scale.Got? && count.value > 0 {
          BlocksExtent(scale.rest, count.value - 1, scale.value, UnzigzagInt(first.value), Unzigzag(ToU64(first.value)));
        }
      }
    }
  }

  // ----- what the writer writes ---------------------------------------------------------------

  lemma {:induction false} WrittenAbsorbs(ds: seq<I64>, scale: nat, t: seq<Byte>)
    ensures Absorbs(BlocksBytes(ds) + t, |ds|, scale)
    decreases |ds|
  {
    hide BlockBytes, DecodeBlock, ReadBlock, RebuiltAll, ReadInt, ToU64;
    if ds != [] {
      var n := Min(BLOCK, |ds|);
      var tail := BlocksBytes(ds[n..]) + t;
      assert BlocksBytes(ds) + t == BlockBytes(ds[..n]) + tail;
      BlockRoundTrip(ds[..n], ToU64(scale), 0, tail);
      BlockExtent(BlockBytes(ds[..n]) + tail, n, scale, 0, 0);
      WrittenMinimum(ds[..n], scale, tail);
      WrittenAbsorbs(ds[n..], scale, t);
    }
  }

  lemma WrittenMinimum(ds: seq<I64>, scale: nat, t: seq<Byte>)
    ensures ReadInt(BlockBytes(ds) + t).Got? && Absorbed(ReadInt(BlockBytes(ds) + t).value, scale)
  {
    hide ReadInt, PutVarint, Packed, Width, MinOf, MaxOf;
    var min := MinOf(ds);
    var us := Residuals(ds, min);
    var tail := [Width(MaxOf(us))] + Packed(us, Width(MaxOf(us))) + t;
    assert BlockBytes(ds) + t == PutVarint(Zigzag(min)) + tail;
    ReadWritten(Zigzag(min), tail);
  }

  /** The second reader, too, returns every encoded column and stops exactly at its end. */
  lemma ReferenceRoundTrip(xs: seq<I64>, t: seq<Byte>)
    requires Countable(xs)
    ensures ReferenceDecode(Encode(xs) + t) == Got(xs, t)
  {
    hide ReferenceDecode, Decode, ReadsAlike, Encode;
    ColumnRoundTrip(xs, t);
    WrittenReadsAlike(xs, t);
    ReferenceAgrees(Encode(xs) + t);
  }

  lemma WrittenReadsAlike(xs: seq<I64>, t: seq<Byte>)
    requires Countable(xs)
    ensures ReadsAlike(Encode(xs) + t)
  {
    hide ReadInt, PutVarint, BlocksBytes, Deltas, Scale, ScaledDeltas, Absorbs, Zigzag;
    if xs == [] {
      ReadWritten(0, t);
    } else {
      var scale := Scale(Deltas(xs[0], xs[1..]));
      var body := BlocksBytes(ScaledOf(xs)) + t;
      var afterFirst := PutVarint(scale) + body;
      var afterCount := PutVarint(Zigzag(xs[0])) + afterFirst;
      EncodeShape(xs);
      assert Encode(xs) + t == PutVarint(|xs|) + afterCount;
      ReadWritten(|xs|, afterCount);
      ReadWritten(Zigzag(xs[0]), afterFirst);
      ReadWritten(scale, body);
      WrittenAbsorbs(ScaledOf(xs), scale, t);
    }
  }

  // ----- where they part ----------------------------------------------------------------------

  /** Bytes of a varint that carry nothing but the promise of another. */
  function Continued(k: nat): seq<Byte> { if k == 0 then [] else [128] + Continued(k - 1) }

  lemma NothingShifted(shift: nat)
    ensures Shifted(0, shift) == 0
  {
  }

  lemma {:induction false} LeadingZeros(k: nat, b: Byte, t: seq<Byte>, shift: nat)
    requires b < 128 && shift + 7 * k <= MAX_SHIFT
    ensures ReadFrom(Continued(k) + [b] + t, shift, 0) == Got(Shifted(b, shift + 7 * k), t)
    decreases k
  {
    hide Shifted;
    var bs := Continued(k) + [b] + t;
    if k == 0 {
      assert bs[1..] == t;
    } else {
      assert bs[0] == 128 && bs[1..] == Continued(k - 1) + [b] + t;
      NothingShifted(shift);
      LeadingZeros(k - 1, b, t, shift + 7);
    }
  }

  /** A one-value column whose first value is 2^64. */
  function SpilledColumn(): seq<Byte> { [1] + SpilledFirst() }

  function SpilledFirst(): seq<Byte> { Continued(9) + [2] + [1] }

  /** Where they part: one reader drops the spilled bit, the other keeps it. */
  lemma SpilledBit()
    ensures Decode(SpilledColumn()) == Got([0], []) && ReferenceDecode(SpilledColumn()) == Got([TWO_63], [])
  {
    hide ReadInt, GetVarint, SpilledFirst;
    SpilledValue();
    OneByteValue(1, SpilledFirst());
    OneByteValue(1, []);
    var last: seq<Byte> := [1];
    assert last + [] == last;
    assert Decode(SpilledColumn()).value == [0] && ReferenceDecode(SpilledColumn()).value == [TWO_63];
  }

  lemma SpilledValue()
    ensures ReadInt(SpilledFirst()) == Got(TWO_64, [1]) && GetVarint(SpilledFirst()) == Got(0, [1])
  {
    hide ReadFrom, GetVarint;
    Pow2Words();
    LeadingZeros(9, 2, [1], 0);
    ReadAgrees(SpilledFirst());
  }

  lemma OneByteValue(b: Byte, t: seq<Byte>)
    requires b < 128
    ensures ReadInt([b] + t) == Got(b, t) && GetVarint([b] + t) == Got(b, t)
  {
    assert ([b] + t)[1..] == t;
    ReadAgrees([b] + t);
  }
}
