/** The integer column format: delta, common scale, frame of reference, bit packing. */
module Codec {
  import opened Types
  import opened Words
  import opened Varint
  import opened Packing

  const BLOCK := 128

  // ----- deltas and their scale ---------------------------------------------------------------

  /** The wrapped difference of two registers. */
  function Delta(prev: I64, x: I64): I64 { ToI64(ToU64(ToU64(x) - ToU64(prev))) }

  function Deltas(prev: I64, xs: seq<I64>): seq<I64> {
    seq(|xs|, i requires 0 <= i < |xs| => Delta(if i == 0 then prev else xs[i - 1], xs[i]))
  }

  function Magnitude(d: I64): U64 { Abs(d) }

  function Gcd(a: U64, b: U64): U64
    decreases b
  {
    if b == 0 then a else Gcd(b, a % b)
  }

  function GcdAll(ds: seq<I64>): U64 {
    if ds == [] then 0 else Gcd(GcdAll(ds[..|ds| - 1]), Magnitude(ds[|ds| - 1]))
  }

  /** The divisor factored out of every delta; one if every delta is zero. */
  function Scale(ds: seq<I64>): (s: U64)
    ensures s > 0
  {
    if GcdAll(ds) == 0 then 1 else GcdAll(ds)
  }

  /** Signed division by the scale read as a signed register, truncating toward zero. */
  function Scaled(d: I64, scale: U64): int
    requires scale > 0
  {
    if scale == 1 then d else TruncDiv(d, ToI64(scale))
  }

  ghost predicate Divides(d: int, x: int) {
    exists k: int :: x == d * k
  }

  lemma DividesCombination(d: int, x: int, y: int, q: int)
    requires Divides(d, x) && Divides(d, y)
    ensures Divides(d, x * q + y)
  {
    var i, j :| x == d * i && y == d * j;
    Factor(d, i, q, j);
    assert x * q + y == d * (i * q + j);
  }

  lemma Factor(d: int, i: int, q: int, j: int)
    ensures (d * i) * q + d * j == d * (i * q + j)
  {
  }

  lemma DividesRemainder(d: int, a: int, b: int)
    requires b > 0 && Divides(d, b)
    ensures Divides(d, a % b) <==> Divides(d, a)
  {
    hide Divides;
    var q, r := a / b, a % b;
    assert a == b * q + r && r == b * -q + a;
    if Divides(d, r) { DividesCombination(d, b, r, q); }
    if Divides(d, a) { DividesCombination(d, b, a, -q); }
  }

  /** The loop's result divides both, and every common divisor divides it. */
  lemma {:induction false} GcdMeaning(a: U64, b: U64, d: int)
    ensures Divides(Gcd(a, b), a) && Divides(Gcd(a, b), b)
    ensures Divides(d, a) && Divides(d, b) ==> Divides(d, Gcd(a, b))
    ensures Gcd(a, b) == 0 <==> a == 0 && b == 0
    decreases b
  {
    if b == 0 {
      assert a == a * 1 && 0 == a * 0;
    } else {
      GcdMeaning(b, a % b, d);
      DividesRemainder(Gcd(a, b), a, b);
      if Divides(d, b) { DividesRemainder(d, a, b); }
    }
  }

  lemma DividesTransitive(a: int, b: int, c: int)
    requires Divides(a, b) && Divides(b, c)
    ensures Divides(a, c)
  {
    var i, j :| b == a * i && c == b * j;
    assert c == a * (i * j);
  }

  lemma DivisorBound(d: U64, x: int)
    requires Divides(d, x) && x > 0
    ensures d <= x
  {
    var k :| x == d * k;
    if k <= 0 { MulOrder(k, 0, d); } else { MulOrder(1, k, d); }
  }

  lemma {:induction false} GcdAllDivides(ds: seq<I64>, i: nat)
    requires i < |ds|
    ensures Divides(GcdAll(ds), Magnitude(ds[i]))
  {
    hide Divides, Gcd;
    var n := |ds| - 1;
    GcdMeaning(GcdAll(ds[..n]), Magnitude(ds[n]), 1);
    if i < n {
      GcdAllDivides(ds[..n], i);
      DividesTransitive(GcdAll(ds), GcdAll(ds[..n]), Magnitude(ds[i]));
    }
  }

  lemma {:induction false} GcdAllZero(ds: seq<I64>)
    ensures GcdAll(ds) == 0 <==> forall i :: 0 <= i < |ds| ==> ds[i] == 0
  {
    hide Divides, Gcd;
    if ds != [] {
      var n := |ds| - 1;
      GcdAllZero(ds[..n]);
      GcdMeaning(GcdAll(ds[..n]), Magnitude(ds[n]), 1);
    }
  }

  /** The scale divides every delta, and it fits a signed register unless it is 2^63 itself. */
  lemma ScaleDivides(ds: seq<I64>)
    ensures Scale(ds) <= TWO_63
    ensures forall i :: 0 <= i < |ds| ==> Divides(Scale(ds), Magnitude(ds[i]))
  {
    hide Divides, GcdAll;
    GcdAllZero(ds);
    forall i | 0 <= i < |ds| ensures Divides(Scale(ds), Magnitude(ds[i])) {
      GcdAllDivides(ds, i);
      OneDivides(Magnitude(ds[i]));
    }
    if GcdAll(ds) != 0 {
      var i :| 0 <= i < |ds| && ds[i] != 0;
      DivisorBound(Scale(ds), Magnitude(ds[i]));
    }
  }

  lemma OneDivides(x: int)
    ensures Divides(1, x)
  {
    assert x == 1 * x;
  }

  /** Nothing larger would do: every divisor of all the deltas divides the scale. */
  lemma {:induction false} ScaleGreatest(ds: seq<I64>, d: int)
    requires forall i :: 0 <= i < |ds| ==> Divides(d, Magnitude(ds[i]))
    ensures Divides(d, GcdAll(ds))
  {
    hide Gcd;
    if ds == [] {
      assert 0 == d * 0;
    } else {
      var n := |ds| - 1;
      ScaleGreatest(ds[..n], d);
      GcdMeaning(GcdAll(ds[..n]), Magnitude(ds[n]), d);
    }
  }

  lemma ExactQuotient(d: I64, scale: U64, k: int)
    requires 0 < scale < TWO_63 && Magnitude(d) == scale * k
    ensures Scaled(d, scale) * scale == d && -TWO_63 <= Scaled(d, scale) < TWO_63
  {
    if k < 0 { MulOrder(k, -1, scale); }
    DivModUnique(Magnitude(d), scale, k, 0);
    MulOrder(1, scale, k);
    assert (-k) * scale == -(scale * k);
  }

  /** Dividing by the scale is exact: multiplying back restores the delta's register, even for the
      scale 2^63, which reads as the most negative number. */
  lemma ScaledExact(d: I64, scale: U64)
    requires 0 < scale <= TWO_63 && Divides(scale, Magnitude(d))
    ensures -TWO_63 <= Scaled(d, scale) < TWO_63
    ensures ToU64(Times(Scaled(d, scale), scale)) == ToU64(d)
  {
    var k :| Magnitude(d) == scale * k;
    if scale < TWO_63 {
      ExactQuotient(d, scale, k);
    } else {
      assert d == 0 || d == -TWO_63;
      assert ToI64(scale) == -TWO_63;
    }
  }

  /** Every delta divided by the scale. */
  function ScaledDeltas(ds: seq<I64>, scale: U64): (r: seq<I64>)
    requires scale == Scale(ds)
    ensures |r| == |ds|
  {
    ScaledInRange(ds);
    seq(|ds|, i requires 0 <= i < |ds| => Scaled(ds[i], scale))
  }

  lemma ScaledInRange(ds: seq<I64>)
    ensures forall i :: 0 <= i < |ds| ==> -TWO_63 <= Scaled(ds[i], Scale(ds)) < TWO_63
  {
    ScaleDivides(ds);
    forall i | 0 <= i < |ds| ensures -TWO_63 <= Scaled(ds[i], Scale(ds)) < TWO_63 {
      ScaledExact(ds[i], Scale(ds));
    }
  }

  // ----- writing ------------------------------------------------------------------------------

  function MinOf(ds: seq<I64>): (m: I64)
    ensures forall i :: 0 <= i < |ds| ==> m <= ds[i]
    ensures ds != [] ==> m in ds
  {
    if ds == [] then TWO_63 - 1
    else
      var m := MinOf(ds[..|ds| - 1]);
      assert ds == ds[..|ds| - 1] + [ds[|ds| - 1]];
      if |ds| > 1 && m <= ds[|ds| - 1] then m else ds[|ds| - 1]
  }

  function MaxOf(us: seq<U64>): (m: U64)
    ensures forall i :: 0 <= i < |us| ==> us[i] <= m
  {
    if us == [] then 0
    else
      var m := MaxOf(us[..|us| - 1]);
      assert us == us[..|us| - 1] + [us[|us| - 1]];
      if us[|us| - 1] > m then us[|us| - 1] else m
  }

  function Residual(d: I64, min: I64): U64 { ToU64(ToU64(d) - ToU64(min)) }

  function Residuals(ds: seq<I64>, min: I64): (r: seq<U64>)
    ensures |r| == |ds|
  {
    seq(|ds|, i requires 0 <= i < |ds| => Residual(ds[i], min))
  }

  function BitsFor(range: U64): nat {
    if range == 0 then 0 else 1 + BitsFor(range / 2)
  }

  function Width(range: U64): (bits: Byte)
    ensures bits <= MAX_PACKED_BITS || bits == 64
  {
    if BitsFor(range) > MAX_PACKED_BITS then 64 else BitsFor(range)
  }

  function BlockBytes(ds: seq<I64>): seq<Byte> {
    var min := MinOf(ds);
    var us := Residuals(ds, min);
    var bits := Width(MaxOf(us));
    PutVarint(Zigzag(min)) + [bits] + Packed(us, bits)
  }

  /** The scaled deltas, 128 to a block. */
  function BlocksBytes(ds: seq<I64>): seq<Byte> {
    if ds == [] then []
    else
      var n := Min(BLOCK, |ds|);
      BlockBytes(ds[..n]) + BlocksBytes(ds[n..])
  }

  predicate Countable(xs: seq<I64>) { |xs| < TWO_64 }

  function Encode(xs: seq<I64>): seq<Byte>
    requires Countable(xs)
  {
    if xs == [] then PutVarint(0)
    else
      var ds := Deltas(xs[0], xs[1..]);
      PutVarint(|xs|) + PutVarint(Zigzag(xs[0])) + PutVarint(Scale(ds)) + BlocksBytes(ScaledDeltas(ds, Scale(ds)))
  }

  // ----- reading ------------------------------------------------------------------------------

  /** One value from its residual; every step wraps. */
  function Restored(prev: I64, residual: int, min: I64, scale: U64): I64 {
    var delta := ToI64(ToU64(residual + ToU64(min)));
    var step := if scale != 1 then ToI64(ToU64(Times(ToU64(delta), scale))) else delta;
    ToI64(ToU64(ToU64(prev) + ToU64(step)))
  }

  function RestoredAll(prev: I64, residuals: seq<int>, min: I64, scale: U64): (xs: seq<I64>)
    ensures |xs| == |residuals|
  {
    if residuals == [] then []
    else
      var before := RestoredAll(prev, residuals[..|residuals| - 1], min, scale);
      before + [Restored(LastOf(prev, before), residuals[|residuals| - 1], min, scale)]
  }

  function LastOf(prev: I64, xs: seq<I64>): I64 { if xs == [] then prev else xs[|xs| - 1] }

  function DecodeBlock(bs: seq<Byte>, n: nat, scale: U64, prev: I64): (r: Parsed<seq<I64>>)
    ensures r.Got? ==> |r.value| == n
  {
    match GetVarint(bs)
    case Malformed => Malformed
    case Got(min, afterMin) =>
      if afterMin == [] || afterMin[0] > 64 || MAX_PACKED_BITS < afterMin[0] < 64 then Malformed
      else match Unpacked(afterMin[1..], n, afterMin[0])
        case Malformed => Malformed
        case Got(residuals, rest) => Got(RestoredAll(prev, residuals, Unzigzag(min), scale), rest)
  }

  /** The `left` values still to come. */
  function DecodeBlocks(bs: seq<Byte>, left: nat, scale: U64, prev: I64): (r: Parsed<seq<I64>>)
    ensures r.Got? ==> |r.value| == left
    decreases left
  {
    if left == 0 then Got([], bs)
    else
      var n := Min(BLOCK, left);
      match DecodeBlock(bs, n, scale, prev)
      case Malformed => Malformed
      case Got(xs, rest) =>
        match DecodeBlocks(rest, left - n, scale, LastOf(prev, xs))
        case Malformed => Malformed
        case Got(ys, end) => Got(xs + ys, end)
  }

  function Decode(bs: seq<Byte>): Parsed<seq<I64>>
  {
    match GetVarint(bs)
    case Malformed => Malformed
    case Got(count, afterCount) =>
      if count == 0 then Got([], afterCount)
      else match GetVarint(afterCount)
        case Malformed => Malformed
        case Got(first, afterFirst) =>
          match GetVarint(afterFirst)
          case Malformed => Malformed
          case Got(scale, body) =>
            if scale == 0 then Malformed
            else match DecodeBlocks(body, count - 1, scale, Unzigzag(first))
              case Malformed => Malformed
              case Got(xs, rest) => Got([Unzigzag(first)] + xs, rest)
  }

  function PeekCount(bs: seq<Byte>): U64 {
    if GetVarint(bs).Got? then GetVarint(bs).value else 0
  }
}
