/** What the column format guarantees: exact round trips, refusal of every strict prefix, and its size. */
module CodecProperties {
  import opened Types
  import opened Words
  import opened Varint
  import opened Packing
  import opened Codec

  // ----- one value ----------------------------------------------------------------------------

  /** The value a scaled delta stands for. */
  function Rebuilt(prev: I64, d: I64, scale: U64): I64 { ToI64(ToU64(prev + Times(d, scale))) }

  function RebuiltAll(prev: I64, ds: seq<I64>, scale: U64): (xs: seq<I64>)
    ensures |xs| == |ds|
  {
    if ds == [] then []
    else
      var before := RebuiltAll(prev, ds[..|ds| - 1], scale);
      before + [Rebuilt(LastOf(prev, before), ds[|ds| - 1], scale)]
  }

  lemma ResidualIs(d: I64, min: I64)
    requires min <= d
    ensures Residual(d, min) == d - min
    ensures ToI64(ToU64(Residual(d, min) + ToU64(min))) == d
  {
    RegisterOf(d);
    RegisterOf(min);
    WrapUnique(ToU64(d) - ToU64(min), d - min, if d < 0 <= min then 1 else if min < 0 <= d then -1 else 0);
    WrapAdd(d - min, min);
    SignedRoundTrip(d);
  }

  /** A residual added back to the block's minimum is the scaled delta again. */
  lemma RestoredIsRebuilt(prev: I64, d: I64, min: I64, scale: U64)
    requires min <= d
    ensures Restored(prev, Residual(d, min), min, scale) == Rebuilt(prev, d, scale)
  {
    hide ToU64, ToI64, Residual, Times;
    ResidualIs(d, min);
    var product := Times(d, scale);
    WrapMul(d, scale);
    TimesOne(d);
    UnsignedRoundTrip(ToU64(product));
    SumOfRegisters(prev, product);
  }

  lemma SumOfRegisters(x: int, y: int)
    ensures ToU64(ToU64(x) + ToU64(y)) == ToU64(x + y)
  {
    WrapAdd(ToU64(x), y);
    WrapAdd(y, x);
  }

  lemma {:induction false} RestoredAllIsRebuilt(prev: I64, ds: seq<I64>, min: I64, scale: U64)
    requires forall i :: 0 <= i < |ds| ==> min <= ds[i]
    ensures RestoredAll(prev, Residuals(ds, min), min, scale) == RebuiltAll(prev, ds, scale)
  {
    hide Restored, Rebuilt, Residual;
    if ds != [] {
      var n := |ds| - 1;
      RestoredAllIsRebuilt(prev, ds[..n], min, scale);
      assert Residuals(ds, min)[..n] == Residuals(ds[..n], min);
      RestoredIsRebuilt(LastOf(prev, RebuiltAll(prev, ds[..n], scale)), ds[n], min, scale);
    }
  }

  /** Rebuilding from the exact scaled deltas restores the column, wrap-around included. */
  lemma RebuiltDelta(prev: I64, x: I64, scale: U64)
    requires 0 < scale <= TWO_63 && Divides(scale, Magnitude(Delta(prev, x)))
    requires -TWO_63 <= Scaled(Delta(prev, x), scale) < TWO_63
    ensures Rebuilt(prev, Scaled(Delta(prev, x), scale), scale) == x
  {
    hide ToU64, ToI64, Times, Scaled;
    var d := Delta(prev, x);
    ScaledExact(d, scale);
    var product := Times(Scaled(d, scale), scale);
    WrapAdd(prev, product);
    WrapAdd(prev, d);
    UnsignedRoundTrip(ToU64(ToU64(x) - ToU64(prev)));
    DifferenceBack(prev, x);
    SignedRoundTrip(x);
  }

  lemma DifferenceBack(prev: I64, x: I64)
    ensures ToU64(prev + ToU64(ToU64(x) - ToU64(prev))) == ToU64(x)
  {
    WrapAdd(prev, ToU64(x) - ToU64(prev));
    RegisterOf(prev);
    WrapUnique(prev + (ToU64(x) - ToU64(prev)), ToU64(x), if prev < 0 then -1 else 0);
  }

  lemma {:induction false} RebuiltColumn(prev: I64, xs: seq<I64>, all: seq<I64>, k: nat)
    requires k <= |xs| && all == Deltas(prev, xs)
    ensures RebuiltAll(prev, ScaledDeltas(all, Scale(all))[..k], Scale(all)) == xs[..k]
  {
    hide Rebuilt, Scaled, Delta, Scale, Divides;
    if k > 0 {
      RebuiltColumn(prev, xs, all, k - 1);
      var ss := ScaledDeltas(all, Scale(all));
      assert ss[..k][..k - 1] == ss[..k - 1];
      ScaleDivides(all);
      ScaledInRange(all);
      assert all[k - 1] == Delta(if k == 1 then prev else xs[k - 2], xs[k - 1]);
      RebuiltDelta(if k == 1 then prev else xs[k - 2], xs[k - 1], Scale(all));
    }
  }

  lemma {:induction false} RebuiltSplit(prev: I64, a: seq<I64>, b: seq<I64>, scale: U64)
    ensures RebuiltAll(prev, a + b, scale)
         == RebuiltAll(prev, a, scale) + RebuiltAll(LastOf(prev, RebuiltAll(prev, a, scale)), b, scale)
  {
    hide Rebuilt;
    var head := RebuiltAll(prev, a, scale);
    if b == [] {
      assert a + b == a;
    } else {
      var n := |b| - 1;
      assert (a + b)[..|a + b| - 1] == a + b[..n];
      RebuiltSplit(prev, a, b[..n], scale);
    }
  }

  // ----- one block ----------------------------------------------------------------------------

  lemma {:induction false} BitsForMeaning(range: U64)
    ensures range < Pow2(BitsFor(range))
    ensures range > 0 ==> BitsFor(range) > 0 && Pow2(BitsFor(range) - 1) <= range
  {
    if range > 0 {
      BitsForMeaning(range / 2);
    }
  }

  /** The chosen width holds every residual, and no narrower packed width would. */
  lemma WidthHolds(us: seq<U64>)
    ensures Below(us, Pow2(Width(MaxOf(us))))
    ensures Width(MaxOf(us)) < 64 && us != [] ==> forall w: nat :: Below(us, Pow2(w)) ==> Width(MaxOf(us)) <= w
  {
    hide Pow2, MaxOf, Width;
    WidthOf(MaxOf(us));
    if Width(MaxOf(us)) < 64 && us != [] {
      MaxIsIn(us);
      forall w: nat | Below(us, Pow2(w)) ensures Width(MaxOf(us)) <= w {
        var i :| 0 <= i < |us| && us[i] == MaxOf(us);
        NarrowerFails(MaxOf(us), w);
      }
    }
  }

  lemma WidthOf(m: U64)
    ensures m < Pow2(Width(m))
  {
    BitsForMeaning(m);
    Pow2Words();
  }

  lemma NarrowerFails(m: U64, w: nat)
    ensures Width(m) < 64 && m < Pow2(w) ==> Width(m) <= w
  {
    BitsForMeaning(m);
    if w < BitsFor(m) { Pow2Grows(w, BitsFor(m) - 1); }
  }

  lemma {:induction false} MaxIsIn(us: seq<U64>)
    requires us != []
    ensures MaxOf(us) in us
  {
    var n := |us| - 1;
    assert us == us[..n] + [us[n]];
    if n > 0 {
      MaxIsIn(us[..n]);
    }
  }

  lemma BlockRoundTrip(ds: seq<I64>, scale: U64, prev: I64, t: seq<Byte>)
    ensures DecodeBlock(BlockBytes(ds) + t, |ds|, scale, prev) == Got(RebuiltAll(prev, ds, scale), t)
  {
    hide GetVarint, PutVarint, Packed, Unpacked, RestoredAll, Pow2, Width;
    var min := MinOf(ds);
    var us := Residuals(ds, min);
    var bits := Width(MaxOf(us));
    var tail := [bits] + Packed(us, bits) + t;
    assert BlockBytes(ds) + t == PutVarint(Zigzag(min)) + tail;
    VarintRoundTrip(Zigzag(min), tail);
    ZigzagBijective(min, 0);
    assert tail[1..] == Packed(us, bits) + t;
    WidthHolds(us);
    PackRoundTrip(us, bits, t);
    RestoredAllIsRebuilt(prev, ds, min, scale);
  }

  lemma {:induction false} BlocksRoundTrip(ds: seq<I64>, scale: U64, prev: I64, t: seq<Byte>)
    ensures DecodeBlocks(BlocksBytes(ds) + t, |ds|, scale, prev) == Got(RebuiltAll(prev, ds, scale), t)
    decreases |ds|
  {
    hide BlockBytes, DecodeBlock, RebuiltAll;
    if ds == [] {
      assert BlocksBytes(ds) + t == t;
      NothingRebuilt(prev, scale);
    } else {
      var n := Min(BLOCK, |ds|);
      assert BlocksBytes(ds) + t == BlockBytes(ds[..n]) + (BlocksBytes(ds[n..]) + t);
      BlockRoundTrip(ds[..n], scale, prev, BlocksBytes(ds[n..]) + t);
      BlocksRoundTrip(ds[n..], scale, LastOf(prev, RebuiltAll(prev, ds[..n], scale)), t);
      RebuiltSplit(prev, ds[..n], ds[n..], scale);
      assert ds[..n] + ds[n..] == ds;
    }
  }

  lemma NothingRebuilt(prev: I64, scale: U64)
    ensures RebuiltAll(prev, [], scale) == []
  {
  }

  // ----- round trip ---------------------------------------------------------------------------

  /** Decoding an encoded column, whatever bytes follow it, returns the column and stops exactly at its
      end: for every sequence of 64-bit integers, however their differences wrap. */
  lemma ColumnRoundTrip(xs: seq<I64>, t: seq<Byte>)
    requires Countable(xs)
    ensures Decode(Encode(xs) + t) == Got(xs, t)
  {
    hide GetVarint, PutVarint, BlocksBytes, DecodeBlocks, Deltas, Scale, ScaledDeltas, RebuiltAll;
    if xs == [] {
      VarintRoundTrip(0, t);
    } else {
      var ds := Deltas(xs[0], xs[1..]);
      var ss := ScaledOf(xs);
      var body := BlocksBytes(ss) + t;
      var afterFirst := PutVarint(Scale(ds)) + body;
      var afterCount := PutVarint(Zigzag(xs[0])) + afterFirst;
      EncodeShape(xs);
      assert Encode(xs) + t == PutVarint(|xs|) + afterCount;
      VarintRoundTrip(|xs|, afterCount);
      VarintRoundTrip(Zigzag(xs[0]), afterFirst);
      VarintRoundTrip(Scale(ds), body);
      ZigzagBijective(xs[0], 0);
      BlocksRoundTrip(ss, Scale(ds), xs[0], t);
      RebuiltWhole(xs);
      assert xs == [xs[0]] + xs[1..];
    }
  }

  function ScaledOf(xs: seq<I64>): (ss: seq<I64>)
    requires xs != []
    ensures |ss| == |xs| - 1
  {
    ScaledDeltas(Deltas(xs[0], xs[1..]), Scale(Deltas(xs[0], xs[1..])))
  }

  lemma EncodeShape(xs: seq<I64>)
    requires Countable(xs) && xs != []
    ensures Encode(xs) == PutVarint(|xs|) + PutVarint(Zigzag(xs[0])) + PutVarint(Scale(Deltas(xs[0], xs[1..]))) + BlocksBytes(ScaledOf(xs))
  {
  }

  lemma RebuiltWhole(xs: seq<I64>)
    requires xs != []
    ensures RebuiltAll(xs[0], ScaledOf(xs), Scale(Deltas(xs[0], xs[1..]))) == xs[1..]
  {
    var ds := Deltas(xs[0], xs[1..]);
    RebuiltColumn(xs[0], xs[1..], ds, |xs| - 1);
    assert ScaledOf(xs)[..|xs| - 1] == ScaledOf(xs) && xs[1..][..|xs| - 1] == xs[1..];
  }

  // ----- damage -------------------------------------------------------------------------------

  lemma BlockExtends(bs: seq<Byte>, n: nat, scale: U64, prev: I64, t: seq<Byte>)
    requires DecodeBlock(bs, n, scale, prev).Got?
    ensures var r := DecodeBlock(bs, n, scale, prev); DecodeBlock(bs + t, n, scale, prev) == Got(r.value, r.rest + t)
  {
    hide GetVarint, Unpacked, RestoredAll;
    GetVarintExtends(bs, t);
    var afterMin := GetVarint(bs).rest;
    assert (afterMin + t)[1..] == afterMin[1..] + t;
    UnpackedExtends(afterMin[1..], n, afterMin[0], t);
  }

  lemma {:induction false} BlocksExtend(bs: seq<Byte>, left: nat, scale: U64, prev: I64, t: seq<Byte>)
    requires DecodeBlocks(bs, left, scale, prev).Got?
    ensures var r := DecodeBlocks(bs, left, scale, prev); DecodeBlocks(bs + t, left, scale, prev) == Got(r.value, r.rest + t)
    decreases left
  {
    hide DecodeBlock;
    if left > 0 {
      var n := Min(BLOCK, left);
      BlockExtends(bs, n, scale, prev, t);
      var r := DecodeBlock(bs, n, scale, prev);
      BlocksExtend(r.rest, left - n, scale, LastOf(prev, r.value), t);
    }
  }

  /** Bytes after a readable column never change what is read. */
  lemma DecodeExtends(bs: seq<Byte>, t: seq<Byte>)
    requires Decode(bs).Got?
    ensures Decode(bs + t) == Got(Decode(bs).value, Decode(bs).rest + t)
  {
    hide GetVarint, DecodeBlocks;
    GetVarintExtends(bs, t);
    var count := GetVarint(bs);
    if count.value != 0 {
      GetVarintExtends(count.rest, t);
      var first := GetVarint(count.rest);
      GetVarintExtends(first.rest, t);
      var scale := GetVarint(first.rest);
      BlocksExtend(scale.rest, count.value - 1, scale.value, Unzigzag(first.value), t);
    }
  }

  /** A column cut short anywhere is refused. */
  lemma PrefixRefused(xs: seq<I64>, n: nat)
    requires Countable(xs) && n < |Encode(xs)|
    ensures Decode(Encode(xs)[..n]).Malformed?
  {
    hide Decode, Encode;
    var bs := Encode(xs);
    if Decode(bs[..n]).Got? {
      DecodeExtends(bs[..n], bs[n..]);
      assert bs[..n] + bs[n..] == bs && bs + [] == bs;
      ColumnRoundTrip(xs, []);
    }
  }

  ghost predicate IsTail(rest: seq<Byte>, bs: seq<Byte>) {
    |rest| <= |bs| && rest == bs[|bs| - |rest|..]
  }

  lemma TailOfTail(a: seq<Byte>, b: seq<Byte>, c: seq<Byte>)
    requires IsTail(a, b) && IsTail(b, c)
    ensures IsTail(a, c)
  {
  }

  lemma BlockTail(bs: seq<Byte>, n: nat, scale: U64, prev: I64)
    requires DecodeBlock(bs, n, scale, prev).Got?
    ensures IsTail(DecodeBlock(bs, n, scale, prev).rest, bs)
  {
    hide RestoredAll;
    var afterMin := GetVarint(bs).rest;
    TailOfTail(afterMin[1..], afterMin, bs);
    TailOfTail(DecodeBlock(bs, n, scale, prev).rest, afterMin[1..], bs);
  }

  lemma {:induction false} BlocksTail(bs: seq<Byte>, left: nat, scale: U64, prev: I64)
    requires DecodeBlocks(bs, left, scale, prev).Got?
    ensures IsTail(DecodeBlocks(bs, left, scale, prev).rest, bs)
    decreases left
  {
    hide DecodeBlock;
    if left > 0 {
      var n := Min(BLOCK, left);
      BlockTail(bs, n, scale, prev);
      var r := DecodeBlock(bs, n, scale, prev);
      BlocksTail(r.rest, left - n, scale, LastOf(prev, r.value));
      TailOfTail(DecodeBlocks(bs, left, scale, prev).rest, r.rest, bs);
    }
  }

  /** On any bytes at all, an accepted column consumes at least one byte, never more than there are, and
      holds exactly the number of values its first varint claims. */
  lemma DecodeConsumes(bs: seq<Byte>)
    requires Decode(bs).Got?
    ensures IsTail(Decode(bs).rest, bs) && |Decode(bs).rest| < |bs|
    ensures PeekCount(bs) == |Decode(bs).value|
  {
    hide DecodeBlocks, GetVarint, Unzigzag;
    var count := GetVarint(bs);
    if count.value != 0 {
      var first := GetVarint(count.rest);
      var scale := GetVarint(first.rest);
      BlocksTail(scale.rest, count.value - 1, scale.value, Unzigzag(first.value));
      TailOfTail(first.rest, count.rest, bs);
      TailOfTail(scale.rest, first.rest, bs);
      TailOfTail(Decode(bs).rest, scale.rest, bs);
    }
  }

  // ----- size ---------------------------------------------------------------------------------

  function BlockCount(n: nat): nat { (n + BLOCK - 1) / BLOCK }

  lemma BlockSize(ds: seq<I64>)
    ensures |BlockBytes(ds)| <= 11 + 8 * |ds|
  {
    hide PutVarint, Packed, Width, MaxOf, MinOf;
    var us := Residuals(ds, MinOf(ds));
    var bits := Width(MaxOf(us));
    VarintAtMostTen(Zigzag(MinOf(ds)));
    MulOrder(bits, 64, |ds|);
  }

  lemma {:induction false} BlocksSize(ds: seq<I64>)
    ensures |BlocksBytes(ds)| <= 11 * BlockCount(|ds|) + 8 * |ds|
    decreases |ds|
  {
    hide BlockBytes;
    if ds != [] {
      var n := Min(BLOCK, |ds|);
      BlockSize(ds[..n]);
      BlocksSize(ds[n..]);
    }
  }

  /** At most thirty bytes of header, eleven per block and eight per value after the first. */
  lemma EncodedSize(xs: seq<I64>)
    requires Countable(xs)
    ensures xs == [] ==> |Encode(xs)| == 1
    ensures xs != [] ==> |Encode(xs)| <= 30 + 11 * BlockCount(|xs| - 1) + 8 * (|xs| - 1)
  {
    hide BlocksBytes, Scale, Deltas, ScaledDeltas;
    if xs != [] {
      EncodeShape(xs);
      VarintAtMostTen(|xs|);
      VarintAtMostTen(Zigzag(xs[0]));
      VarintAtMostTen(Scale(Deltas(xs[0], xs[1..])));
      BlocksSize(ScaledOf(xs));
    }
  }

  ghost predicate AllSame(ds: seq<I64>, d: I64) {
    forall i :: 0 <= i < |ds| ==> ds[i] == d
  }

  lemma {:induction false} SameGcd(ds: seq<I64>, d: I64)
    requires AllSame(ds, d) && ds != []
    ensures GcdAll(ds) == Magnitude(d)
  {
    hide Gcd;
    GcdOfSame(Magnitude(d));
    if |ds| > 1 {
      SameGcd(ds[..|ds| - 1], d);
    }
  }

  lemma GcdOfSame(m: U64)
    ensures Gcd(m, m) == m && Gcd(0, m) == m
  {
    if m > 0 {
      DivModUnique(m, m, 1, 0);
      DivModUnique(0, m, 0, 0);
    }
  }

  /** A common step divides away to 0, 1 or -1. */
  lemma SameScaled(ds: seq<I64>, d: I64)
    requires AllSame(ds, d) && ds != []
    ensures exists u: I64 :: -1 <= u <= 1 && AllSame(ScaledDeltas(ds, Scale(ds)), u)
  {
    SameGcd(ds, d);
    ScaledInRange(ds);
    var u := Scaled(d, Scale(ds));
    if d != 0 { UnitQuotient(d); }
    assert AllSame(ScaledDeltas(ds, Scale(ds)), u);
  }

  lemma UnitQuotient(d: I64)
    requires d != 0
    ensures -1 <= Scaled(d, Magnitude(d)) <= 1
  {
    var m := Magnitude(d);
    if m < TWO_63 {
      DivModUnique(m, m, 1, 0);
    }
  }

  lemma {:induction false} SameMax(us: seq<U64>)
    requires forall i :: 0 <= i < |us| ==> us[i] == 0
    ensures MaxOf(us) == 0
  {
    if us != [] {
      SameMax(us[..|us| - 1]);
    }
  }

  lemma UnitBlock(ds: seq<I64>, u: I64)
    requires AllSame(ds, u) && ds != [] && -1 <= u <= 1
    ensures |BlockBytes(ds)| == 2
  {
    var us := Residuals(ds, MinOf(ds));
    assert MinOf(ds) in ds;
    SameMax(us);
  }

  lemma {:induction false} UnitBlocks(ds: seq<I64>, u: I64)
    requires AllSame(ds, u) && -1 <= u <= 1
    ensures |BlocksBytes(ds)| == 2 * BlockCount(|ds|)
    decreases |ds|
  {
    hide BlockBytes;
    if ds != [] {
      var n := Min(BLOCK, |ds|);
      UnitBlock(ds[..n], u);
      UnitBlocks(ds[n..], u);
    }
  }

  /** A column that moves by the same step throughout costs exactly two bytes per block after its header. */
  lemma ConstantStepSize(xs: seq<I64>, d: I64)
    requires Countable(xs) && xs != [] && AllSame(Deltas(xs[0], xs[1..]), d)
    ensures |Encode(xs)| == |PutVarint(|xs|)| + |PutVarint(Zigzag(xs[0]))| + |PutVarint(Scale(Deltas(xs[0], xs[1..])))|
                            + 2 * BlockCount(|xs| - 1)
  {
    hide BlocksBytes, Scale, ScaledDeltas, PutVarint;
    EncodeShape(xs);
    var ds := Deltas(xs[0], xs[1..]);
    if ds != [] {
      SameScaled(ds, d);
      var u: I64 :| -1 <= u <= 1 && AllSame(ScaledDeltas(ds, Scale(ds)), u);
      UnitBlocks(ScaledOf(xs), u);
    } else {
      UnitBlocks(ScaledOf(xs), 0);
    }
  }
}
