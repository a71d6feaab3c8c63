/** The loops of the column codec, over fixed 128-value buffers, proved against the format. */
module CodecEngine {
  import opened Types
  import opened Words
  import opened Varint
  import opened Packing
  import opened Codec
  import opened CodecProperties

  // ----- encoder ------------------------------------------------------------------------------

  method GcdOf(a0: U64, b0: U64) returns (g: U64)
    ensures g == Gcd(a0, b0)
    ensures Divides(g, a0) && Divides(g, b0)
    ensures forall d :: Divides(d, a0) && Divides(d, b0) ==> Divides(d, g)
  {
    var a, b := a0, b0;
    while b != 0
      invariant 0 <= a < TWO_64 && 0 <= b < TWO_64 && Gcd(a, b) == Gcd(a0, b0)
      decreases b
    {
      a, b := b, a % b;
    }
    g := a;
    forall d ensures Divides(g, a0) && Divides(g, b0) && (Divides(d, a0) && Divides(d, b0) ==> Divides(d, g)) {
      GcdMeaning(a0, b0, d);
    }
  }

  method BitWidth(range: U64) returns (bits: nat)
    ensures bits == BitsFor(range)
  {
    var r := range;
    bits := 0;
    while r > 0
      invariant 0 <= r < TWO_64 && bits + BitsFor(r) == BitsFor(range)
    {
      bits := bits + 1;
      r := r / 2;
    }
  }

  lemma GcdOne(m: U64)
    ensures Gcd(1, m) == 1
  {
    if m > 1 {
      DivModUnique(1, m, 0, 1);
      DivModUnique(m, 1, m, 0);
    } else if m == 1 {
      GcdOfSame(1);
    }
  }

  /** Once the divisor is one it stays one, so the scan may stop. */
  lemma {:induction false} GcdAllOne(ds: seq<I64>, k: nat)
    requires k <= |ds| && GcdAll(ds[..k]) == 1
    ensures GcdAll(ds) == 1
  {
    hide Gcd;
    if k == |ds| {
      assert ds[..k] == ds;
    } else {
      var n := |ds| - 1;
      assert ds[..n][..k] == ds[..k];
      GcdAllOne(ds[..n], k);
      GcdOne(Magnitude(ds[n]));
    }
  }

  /** The common divisor of all the deltas; the scan ends early at one. */
  method FindScale(values: seq<I64>) returns (scale: U64)
    requires values != []
    ensures scale == Scale(Deltas(values[0], values[1..]))
  {
    hide Gcd, Delta, Divides;
    ghost var ds := Deltas(values[0], values[1..]);
    scale := 0;
    var previous := values[0];
    var j := 1;
    while j < |values| && scale != 1
      invariant 1 <= j <= |values| && previous == values[j - 1] && scale == GcdAll(ds[..j - 1])
    {
      var d := Delta(previous, values[j]);
      assert d == ds[j - 1] && ds[..j][..j - 1] == ds[..j - 1];
      previous := values[j];
      scale := GcdOf(scale, Magnitude(d));
      j := j + 1;
    }
    if scale == 1 {
      GcdAllOne(ds, j - 1);
    } else {
      assert ds[..j - 1] == ds;
    }
    if scale == 0 { scale := 1; }
  }

  /** Scaled deltas of `n` values from position `i`, and the least of them. */
  method FillDeltas(values: seq<I64>, i: nat, n: nat, scale: U64, deltas: array<I64>) returns (min: I64)
    requires 0 < i && i + n <= |values| && n <= deltas.Length
    requires scale == Scale(Deltas(values[0], values[1..]))
    modifies deltas
    ensures deltas[..n] == ScaledOf(values)[i - 1..i - 1 + n] && min == MinOf(deltas[..n])
  {
    hide Scale, Scaled, Delta, Deltas, ScaledDeltas, MinOf;
    ghost var ss := ScaledOf(values)[i - 1..i - 1 + n];
    min := TWO_63 - 1;
    NothingLeast();
    var previous := values[i - 1];
    for j := 0 to n
      invariant previous == values[i + j - 1]
      invariant deltas[..j] == ss[..j] && min == MinOf(ss[..j])
    {
      ScaledAt(values, i + j);
      var raw := Delta(previous, values[i + j]);
      previous := values[i + j];
      deltas[j] := Scaled(raw, scale);
      assert ss[j] == ScaledOf(values)[i + j - 1];
      assert deltas[..j + 1] == deltas[..j] + [deltas[j]] && ss[..j + 1] == ss[..j] + [ss[j]];
      LeastOfMore(ss[..j], ss[j]);
      if deltas[j] < min { min := deltas[j]; }
    }
    assert ss[..n] == ss;
  }

  lemma ScaledAt(values: seq<I64>, k: nat)
    requires 0 < k < |values|
    ensures var scale, d := Scale(Deltas(values[0], values[1..])), Delta(values[k - 1], values[k]);
            -TWO_63 <= Scaled(d, scale) < TWO_63 && ScaledOf(values)[k - 1] == Scaled(d, scale)
  {
    var ds := Deltas(values[0], values[1..]);
    ScaledInRange(ds);
    assert ds[k - 1] == Delta(values[k - 1], values[k]);
  }

  lemma NothingLeast()
    ensures MinOf([]) == TWO_63 - 1
  {
  }

  lemma LeastOfMore(ds: seq<I64>, d: I64)
    ensures MinOf(ds + [d]) == if d < MinOf(ds) then d else MinOf(ds)
  {
    assert (ds + [d])[..|ds|] == ds;
  }

  /** Residuals over the block's minimum, and the greatest of them. */
  method FillResiduals(deltas: array<I64>, n: nat, min: I64, residuals: array<U64>) returns (range: U64)
    requires n <= deltas.Length && n <= residuals.Length
    modifies residuals
    ensures residuals[..n] == Residuals(old(deltas[..n]), min) && range == MaxOf(residuals[..n])
    ensures deltas[..n] == old(deltas[..n])
  {
    hide Residual;
    ghost var ds := deltas[..n];
    range := 0;
    for j := 0 to n
      invariant forall k :: j <= k < n ==> deltas[k] == ds[k]
      invariant deltas[..n] == ds
      invariant residuals[..j] == Residuals(ds[..j], min) && range == MaxOf(residuals[..j])
    {
      residuals[j] := Residual(deltas[j], min);
      assert residuals[..j + 1] == residuals[..j] + [residuals[j]];
      assert residuals[..j + 1] == Residuals(ds[..j + 1], min);
      if residuals[j] > range { range := residuals[j]; }
    }
    assert ds[..n] == ds;
  }

  /** One block: the least delta, the width, and the residuals at that width. */
  method WriteBlock(ghost ds: seq<I64>, min: I64, residuals: array<U64>, n: nat, range: U64, before: seq<Byte>) returns (out: seq<Byte>)
    requires n <= residuals.Length && n == |ds| && min == MinOf(ds)
    requires residuals[..n] == Residuals(ds, min) && range == MaxOf(residuals[..n])
    ensures out == before + BlockBytes(ds)
  {
    hide Residuals, MinOf, MaxOf, BitsFor, Packed, PutVarint;
    var bits := BitWidth(range);
    if bits > MAX_PACKED_BITS { bits := 64; }
    out := WriteVarint(Zigzag(min), before);
    out := out + [bits];
    if bits == 64 {
      out := WriteWords(residuals, n, out);
    } else {
      out := Pack(residuals, n, bits, out);
    }
  }

  lemma BlocksStep(ss: seq<I64>, k: nat, n: nat, out: seq<Byte>)
    requires k < |ss| && n == Min(BLOCK, |ss| - k)
    ensures out + BlocksBytes(ss[k..]) == out + BlockBytes(ss[k..k + n]) + BlocksBytes(ss[k + n..])
  {
    hide BlockBytes;
    assert ss[k..][..n] == ss[k..k + n] && ss[k..][n..] == ss[k + n..];
  }

  /** Appends the blocks of every value after the first. */
  method WriteBlocks(values: seq<I64>, scale: U64, before: seq<Byte>) returns (out: seq<Byte>)
    requires values != [] && scale == Scale(Deltas(values[0], values[1..]))
    ensures out == before + BlocksBytes(ScaledOf(values))
  {
    hide Scale, Deltas, ScaledDeltas, BlockBytes, BlocksBytes, MinOf, MaxOf, Residuals;
    ghost var ss := ScaledOf(values);
    var residuals: array<U64> := new U64[BLOCK](_ => 0);
    var deltas: array<I64> := new I64[BLOCK](_ => 0);
    out := before;
    var i := 1;
    assert ss[0..] == ss;
    while i < |values|
      invariant 1 <= i <= |values| && out + BlocksBytes(ss[i - 1..]) == before + BlocksBytes(ss)
    {
      var n := Min(BLOCK, |values| - i);
      ghost var ds := ss[i - 1..i - 1 + n];
      var min := FillDeltas(values, i, n, scale, deltas);
      var range := FillResiduals(deltas, n, min, residuals);
      BlocksStep(ss, i - 1, n, out);
      out := WriteBlock(ds, min, residuals, n, range, out);
      i := i + n;
    }
    assert ss[i - 1..] == [];
    NoBlocks();
  }

  /** Appends the encoded column. */
  method EncodeColumn(values: seq<I64>, before: seq<Byte>) returns (out: seq<Byte>, written: nat)
    requires Countable(values)
    ensures out == before + Encode(values) && written == |Encode(values)|
  {
    hide Scale, Deltas, ScaledDeltas, BlocksBytes, PutVarint;
    var count := |values|;
    out := WriteVarint(count, before);
    if count == 0 { return out, |out| - |before|; }
    out := WriteVarint(Zigzag(values[0]), out);
    var scale := FindScale(values);
    out := WriteVarint(scale, out);
    EncodeShape(values);
    out := WriteBlocks(values, scale, out);
    return out, |out| - |before|;
  }

  lemma NoBlocks()
    ensures BlocksBytes([]) == []
  {
  }

  // ----- decoder ------------------------------------------------------------------------------

  method PeekColumnCount(data: seq<Byte>) returns (count: U64)
    ensures count == PeekCount(data)
    ensures Decode(data).Got? ==> count == |Decode(data).value|
  {
    assert data[0..] == data;
    var ok, value, _ := ReadVarint(data, 0);
    if Decode(data).Got? { DecodeConsumes(data); }
    return if ok then value else 0;
  }

  /** Reads one block into the residual buffer. */
  method ReadBlock(data: seq<Byte>, start: nat, n: nat, residuals: array<U64>) returns (ok: bool, min: I64, p: nat)
    requires start <= |data| && n <= residuals.Length
    modifies residuals
    ensures p <= |data|
    ensures forall scale: U64, prev: I64 ::
              DecodeBlock(data[start..], n, scale, prev)
              == if ok then Got(RestoredAll(prev, residuals[..n], min, scale), data[p..]) else Malformed
  {
    hide GetVarint, Unpacked, RestoredAll;
    var packedMin: U64;
    min := 0;
    ok, packedMin, p := ReadVarint(data, start);
    if !ok { return; }
    min := Unzigzag(packedMin);
    if p >= |data| { return false, min, p; }
    var bits := data[p];
    assert data[p..][0] == bits && data[p..][1..] == data[p + 1..];
    p := p + 1;
    if bits > 64 { return false, min, p; }
    if bits == 64 {
      ok, p := ReadWords(data, p, n, residuals);
    } else if bits > MAX_PACKED_BITS {
      return false, min, p;
    } else {
      ok, p := Unpack(data, p, n, bits, residuals);
    }
  }

  /** Prefix sum of a block's residuals into the output. */
  method RestoreBlock(residuals: array<U64>, n: nat, min: I64, scale: U64, prev0: I64, out: array<I64>, i: nat) returns (prev: I64)
    requires n <= residuals.Length && i + n <= out.Length
    modifies out
    ensures out[..i + n] == old(out[..i]) + RestoredAll(prev0, residuals[..n], min, scale)
    ensures prev == LastOf(prev0, RestoredAll(prev0, residuals[..n], min, scale))
  {
    hide Restored;
    prev := prev0;
    for j := 0 to n
      invariant prev == LastOf(prev0, RestoredAll(prev0, residuals[..j], min, scale))
      invariant out[..i + j] == old(out[..i]) + RestoredAll(prev0, residuals[..j], min, scale)
    {
      assert residuals[..j + 1][..j] == residuals[..j];
      prev := Restored(prev, residuals[j], min, scale);
      out[i + j] := prev;
      assert out[..i + j + 1] == out[..i + j] + [prev];
    }
  }

  /** Reads the blocks after the first value into the rest of the output. */
  method ReadBlocks(data: seq<Byte>, start: nat, scale: U64, out: array<I64>) returns (ok: bool, p: nat)
    requires start <= |data| && out.Length > 0
    modifies out
    ensures p <= |data| && out[0] == old(out[0])
    ensures DecodeBlocks(data[start..], out.Length - 1, scale, old(out[0])) == if ok then Got(out[1..], data[p..]) else Malformed
  {
    hide DecodeBlock, DecodeBlocks, Continued, RestoredAll;
    var residuals: array<U64> := new U64[BLOCK](_ => 0);
    var count, previous, i := out.Length, out[0], 1;
    ghost var whole := DecodeBlocks(data[start..], count - 1, scale, previous);
    p := start;
    NothingBefore(whole);
    assert out[1..1] == [];
    while i < count
      invariant 1 <= i <= count && p <= |data| && out[0] == old(out[0])
      invariant Continued(DecodeBlocks(data[p..], count - i, scale, previous), out[1..i]) == whole
    {
      var n := Min(BLOCK, count - i);
      var min: I64;
      ghost var from, before, head := p, out[1..i], out[..i];
      ok, min, p := ReadBlock(data, p, n, residuals);
      ghost var block := RestoredAll(previous, residuals[..n], min, scale);
      assert DecodeBlock(data[from..], n, scale, previous) == if ok then Got(block, data[p..]) else Malformed;
      ContinuedStep(data[from..], count - i, scale, previous, before);
      if !ok { return; }
      previous := RestoreBlock(residuals, n, min, scale, previous, out, i);
      assert out[..i + n] == head + block && out[0] == out[..i + n][0] == head[0];
      assert out[1..i + n] == before + block;
      i := i + n;
    }
    NothingLeft(data[p..], scale, previous, out[1..i]);
    assert out[1..i] == out[1..];
    return true, p;
  }

  /** Decodes a column; returns the bytes consumed, or nothing consumed for a malformed one. */
  method DecodeColumn(data: seq<Byte>) returns (consumed: nat, out: array<I64>)
    ensures match Decode(data)
            case Malformed => consumed == 0
            case Got(xs, rest) => consumed == |data| - |rest| > 0 && out[..] == xs
  {
    hide GetVarint, DecodeBlocks;
    out := new I64[0];
    assert data[0..] == data;
    var ok, count, p := ReadVarint(data, 0);
    if !ok { return 0, out; }
    out := new I64[count](_ => 0);
    if count == 0 { return p, out; }
    var first, scale: U64;
    ok, first, p := ReadVarint(data, p);
    if !ok { return 0, out; }
    out[0] := Unzigzag(first);
    ok, scale, p := ReadVarint(data, p);
    if !ok || scale == 0 { return 0, out; }
    ok, p := ReadBlocks(data, p, scale, out);
    if !ok { return 0, out; }
    assert out[..] == [out[0]] + out[1..];
    DecodeConsumes(data);
    return p, out;
  }

  /** The values read so far, then the rest. */
  function Continued(r: Parsed<seq<I64>>, before: seq<I64>): Parsed<seq<I64>> {
    if r.Got? then Got(before + r.value, r.rest) else Malformed
  }

  lemma NothingBefore(r: Parsed<seq<I64>>)
    ensures Continued(r, []) == r
  {
    if r.Got? { assert [] + r.value == r.value; }
  }

  lemma NothingLeft(bs: seq<Byte>, scale: U64, prev: I64, before: seq<I64>)
    ensures Continued(DecodeBlocks(bs, 0, scale, prev), before) == Got(before, bs)
  {
    assert before + [] == before;
  }

  lemma ContinuedStep(bs: seq<Byte>, left: nat, scale: U64, prev: I64, before: seq<I64>)
    requires left > 0
    ensures var n := Min(BLOCK, left);
            Continued(DecodeBlocks(bs, left, scale, prev), before) ==
            match DecodeBlock(bs, n, scale, prev)
            case Malformed => Malformed
            case Got(xs, rest) => Continued(DecodeBlocks(rest, left - n, scale, LastOf(prev, xs)), before + xs)
  {
    hide DecodeBlock;
    var n := Min(BLOCK, left);
    var r := DecodeBlock(bs, n, scale, prev);
    if r.Got? {
      var s := DecodeBlocks(r.rest, left - n, scale, LastOf(prev, r.value));
      if s.Got? { assert before + (r.value + s.value) == before + r.value + s.value; }
    }
  }
}
