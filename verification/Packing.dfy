/** Fixed-width bit packing: a block of values is one number written in base 2^bits, stored in base 256. */
module Packing {
  import opened Words
  import opened Varint

  /** Up to seven bits are in flight when a value enters the 64-bit accumulator, so wider blocks are
      stored as whole words instead. */
  const MAX_PACKED_BITS := 56

  function PackedBytes(n: nat, bits: nat): nat { (n * bits + 7) / 8 }

  /** The low bits of each value: what the mask keeps. */
  function Low(values: seq<U64>, bits: nat): (r: seq<int>)
    ensures |r| == |values| && Below(r, Pow2(bits))
  {
    seq(|values|, i requires 0 <= i < |values| => LowBits(values[i], bits))
  }

  function LowBits(v: U64, bits: nat): (r: int)
    ensures 0 <= r < Pow2(bits)
  {
    v % Pow2(bits)
  }

  function Packed(values: seq<U64>, bits: nat): (bs: seq<Byte>)
    ensures |bs| == PackedBytes(|values|, bits)
  {
    NumberBound(Low(values, bits), Pow2(bits));
    Digits(Number(Low(values, bits), Pow2(bits)), 256, PackedBytes(|values|, bits))
  }

  function Unpacked(bs: seq<Byte>, n: nat, bits: nat): (r: Parsed<seq<int>>)
    ensures r.Got? ==> |r.value| == n && Below(r.value, Pow2(bits)) && |r.rest| <= |bs| && r.rest == bs[|bs| - |r.rest|..]
  {
    var need := PackedBytes(n, bits);
    if |bs| < need then Malformed
    else
      NumberBound(bs[..need], 256);
      Got(Digits(Number(bs[..need], 256), Pow2(bits), n), bs[need..])
  }

  // ----- round trip ---------------------------------------------------------------------------

  /** The packed bytes have room for every value. */
  lemma PackedFits(n: nat, bits: nat)
    ensures Pow2(bits * n) <= Power(256, PackedBytes(n, bits))
  {
    hide Pow2, Power;
    Pow2Words();
    PowerOfPow2(8, PackedBytes(n, bits));
    assert bits * n == n * bits;
    RoundedUp(n * bits);
    Pow2Grows(bits * n, 8 * PackedBytes(n, bits));
  }

  lemma RoundedUp(x: nat)
    ensures x <= 8 * ((x + 7) / 8) < x + 8
  {
  }

  lemma LowIsAll(values: seq<U64>, bits: nat)
    requires Below(values, Pow2(bits))
    ensures Low(values, bits) == values
  {
    forall i | 0 <= i < |values| ensures LowBits(values[i], bits) == values[i] {
      DivModUnique(values[i], Pow2(bits), 0, values[i]);
    }
  }

  /** Unpacking what was packed returns the values and exactly the bytes after them. */
  lemma PackRoundTrip(values: seq<U64>, bits: nat, t: seq<Byte>)
    requires Below(values, Pow2(bits))
    ensures Unpacked(Packed(values, bits) + t, |values|, bits) == Got(values, t)
  {
    hide Pow2, Power, Number, Digits, PackedBytes;
    LowIsAll(values, bits);
    var bs, x := Packed(values, bits), Number(values, Pow2(bits));
    NumberBound(values, Pow2(bits));
    PowerOfPow2(bits, |values|);
    PackedFits(|values|, bits);
    assert bits * |values| == |values| * bits;
    NumberOfDigits(x, 256, |bs|);
    DigitsOfNumber(values, Pow2(bits));
    assert (bs + t)[..|bs|] == bs && (bs + t)[|bs|..] == t;
  }

  lemma UnpackedExtends(bs: seq<Byte>, n: nat, bits: nat, t: seq<Byte>)
    requires Unpacked(bs, n, bits).Got?
    ensures Unpacked(bs + t, n, bits) == Got(Unpacked(bs, n, bits).value, Unpacked(bs, n, bits).rest + t)
  {
    var need := PackedBytes(n, bits);
    assert (bs + t)[..need] == bs[..need] && (bs + t)[need..] == bs[need..] + t;
  }

  // ----- packing ------------------------------------------------------------------------------

  /** `out` and the accumulator together spell the first `i` values. */
  ghost predicate Packing(out: seq<Byte>, acc: int, held: int, values: seq<U64>, i: int, bits: nat) {
    && 0 <= i <= |values| && 0 <= held && 8 * |out| + held == Times(bits, i)
    && 0 <= acc < Pow2(held)
    && Number(out, 256) + Times(Power(256, |out|), acc) == Number(Low(values[..i], bits), Pow2(bits))
  }

  lemma PackStart(values: seq<U64>, bits: nat)
    ensures Packing([], 0, 0, values, 0, bits)
  {
  }

  lemma LowAppend(values: seq<U64>, i: nat, bits: nat)
    requires i < |values|
    ensures Low(values[..i + 1], bits) == Low(values[..i], bits) + [LowBits(values[i], bits)]
  {
  }

  /** Shifting a value in loses nothing: no bit crosses the top of the register. */
  lemma PackShiftIn(out: seq<Byte>, acc: int, held: int, values: seq<U64>, i: int, bits: nat)
    requires Packing(out, acc, held, values, i, bits) && i < |values|
    ensures var acc' := acc + Shifted(LowBits(values[i], bits), held);
            && Packing(out, acc', held + bits, values, i + 1, bits)
            && (held < 8 && bits <= MAX_PACKED_BITS ==> ToU64(acc') == acc')
  {
    hide LowBits, Number, Low, Pow2, Power, Times, Shifted, ToU64;
    var v := LowBits(values[i], bits);
    LowAppend(values, i, bits);
    NumberAppended(Low(values[..i], bits), v, Pow2(bits));
    ShiftedValue(|out|, acc, v, held, bits, i);
    ShiftedFits(acc, v, held, bits);
    TimesStep(bits, i);
    if held < 8 && bits <= MAX_PACKED_BITS { FitsRegister(acc + Shifted(v, held), held + bits); }
  }

  lemma FitsRegister(x: int, width: nat)
    requires 0 <= x < Pow2(width) && width <= 63
    ensures ToU64(x) == x
  {
    Pow2Words();
    Pow2Grows(width, 63);
  }

  lemma PlaceValue(k: nat, held: nat, bits: nat, i: nat)
    requires 8 * k + held == Times(bits, i)
    ensures Power(Pow2(bits), i) == Power(256, k) * Pow2(held)
  {
    hide Power;
    Pow2Words();
    PowerOfPow2(bits, i);
    PowerOfPow2(8, k);
    Pow2Add(8 * k, held);
  }

  lemma ShiftedValue(k: nat, acc: int, v: int, held: nat, bits: nat, i: nat)
    requires 8 * k + held == Times(bits, i)
    ensures Times(Power(256, k), acc + Shifted(v, held)) == Times(Power(256, k), acc) + Times(Power(Pow2(bits), i), v)
  {
    hide Power, Pow2;
    PlaceValue(k, held, bits, i);
    Place(Power(256, k), acc, v, Pow2(held));
  }

  lemma Place(p: int, acc: int, v: int, h: int)
    ensures p * (acc + v * h) == p * acc + (p * h) * v
  {
    assert p * (v * h) == (p * h) * v;
  }

  lemma ShiftedFits(acc: int, v: int, held: nat, bits: nat)
    requires 0 <= acc < Pow2(held) && 0 <= v < Pow2(bits)
    ensures 0 <= acc + Shifted(v, held) < Pow2(held + bits)
  {
    hide Pow2;
    Pow2Add(held, bits);
    Room(acc, v, Pow2(held), Pow2(bits));
  }

  lemma Room(acc: int, v: int, h: int, b: int)
    requires 0 <= acc < h && 0 <= v < b
    ensures 0 <= acc + v * h < h * b
  {
    MulOrder(v, b - 1, h);
    MulOrder(0, v, h);
    assert (b - 1) * h == h * b - h;
  }

  lemma PackEmit(out: seq<Byte>, acc: int, held: int, values: seq<U64>, i: int, bits: nat)
    requires Packing(out, acc, held, values, i, bits) && held >= 8
    ensures Packing(out + [acc % 256], acc / 256, held - 8, values, i, bits)
  {
    hide Number, Power, Times, Low, Pow2;
    NumberAppended(out, acc % 256, 256);
    LowByteOff(acc, held);
    EmittedByte(|out|, acc);
  }

  lemma LowByteOff(acc: int, held: nat)
    requires held >= 8 && 0 <= acc < Pow2(held)
    ensures 0 <= acc / 256 < Pow2(held - 8)
  {
    Pow2Words();
    Pow2Add(8, held - 8);
  }

  lemma EmittedByte(k: nat, acc: int)
    ensures Times(Power(256, k), acc) == Times(Power(256, k), acc % 256) + Times(Power(256, k + 1), acc / 256)
  {
    var p := Power(256, k);
    assert Power(256, k + 1) == 256 * p;
    SplitByte(p, acc / 256, acc % 256, acc);
  }

  lemma SplitByte(p: int, q: int, r: int, acc: int)
    requires acc == 256 * q + r
    ensures p * acc == p * r + (256 * p) * q
  {
    assert p * (256 * q) == (256 * p) * q;
    assert p * (256 * q + r) == p * (256 * q) + p * r;
  }

  lemma PackEnd(out: seq<Byte>, acc: int, held: int, values: seq<U64>, bits: nat)
    requires Packing(out, acc, held, values, |values|, bits) && held < 8
    ensures held == 0 ==> out == Packed(values, bits)
    ensures held > 0 ==> 0 <= acc < 256 && out + [acc] == Packed(values, bits)
  {
    hide Power, Number, Digits, Pow2, Times, Low, PackedBytes;
    assert values[..|values|] == values;
    LastBits(acc, held);
    EndSize(|out|, held, |values|, bits);
    if held == 0 {
      TimesZero(Power(256, |out|));
      DigitsOfNumber(out, 256);
    } else {
      NumberAppended(out, acc, 256);
      DigitsOfNumber(out + [acc], 256);
    }
  }

  lemma TimesZero(p: int)
    ensures Times(p, 0) == 0
  {
  }

  lemma LastBits(acc: int, held: nat)
    requires held < 8 && 0 <= acc < Pow2(held)
    ensures acc < 256 && (held == 0 ==> acc == 0)
  {
    Pow2Words();
    Pow2Grows(held, 8);
  }

  lemma EndSize(k: nat, held: nat, n: nat, bits: nat)
    requires held < 8 && 8 * k + held == Times(bits, n)
    ensures PackedBytes(n, bits) == if held == 0 then k else k + 1
  {
    assert n * bits == 8 * k + held;
    RoundedUp(8 * k + held);
  }

  /** Packs the first `n` values of the buffer after `before`. */
  method Pack(values: array<U64>, n: nat, bits: nat, before: seq<Byte>) returns (out: seq<Byte>)
    requires n <= values.Length && bits <= MAX_PACKED_BITS
    ensures out == before + Packed(values[..n], bits)
  {
    hide Packing, Packed, Pow2, Shifted, ToU64;
    if bits == 0 {
      NothingPacked(values[..n]);
      return before;
    }
    var acc, held, i := 0, 0, 0;
    ghost var done: seq<Byte> := [];
    out := before;
    PackStart(values[..n], bits);
    while i < n
      invariant 0 <= i <= n && 0 <= held < 8 && out == before + done
      invariant Packing(done, acc, held, values[..n], i, bits)
    {
      PackShiftIn(done, acc, held, values[..n], i, bits);
      acc := ToU64(acc + Shifted(LowBits(values[i], bits), held));
      held := held + bits;
      i := i + 1;
      while held >= 8
        invariant 0 <= held && out == before + done && Packing(done, acc, held, values[..n], i, bits)
      {
        PackEmit(done, acc, held, values[..n], i, bits);
        out := out + [acc % 256];
        done := done + [acc % 256];
        acc := acc / 256;
        held := held - 8;
      }
    }
    PackEnd(done, acc, held, values[..n], bits);
    if held > 0 {
      out := out + [acc % 256];
    }
  }

  lemma NothingPacked(values: seq<U64>)
    ensures Packed(values, 0) == []
  {
  }

  // ----- unpacking ----------------------------------------------------------------------------

  /** The values read, the accumulator and the bytes not yet read together spell the whole number. */
  ghost predicate Unpacking(out: seq<int>, acc: int, held: int, left: seq<Byte>, whole: int, bits: nat) {
    && Below(out, Pow2(bits)) && 0 <= held && 0 <= acc < Pow2(held)
    && whole == Number(out, Pow2(bits)) + Power(Pow2(bits), |out|) * (acc + Pow2(held) * Number(left, 256))
  }

  lemma UnpackStart(bs: seq<Byte>, bits: nat)
    ensures Unpacking([], 0, 0, bs, Number(bs, 256), bits)
  {
  }

  lemma UnpackFeed(out: seq<int>, acc: int, held: int, left: seq<Byte>, whole: int, bits: nat)
    requires Unpacking(out, acc, held, left, whole, bits) && left != []
    ensures var acc' := acc + Shifted(left[0], held);
            && Unpacking(out, acc', held + 8, left[1..], whole, bits)
            && (held < bits <= MAX_PACKED_BITS ==> ToU64(acc') == acc')
  {
    hide Power, Pow2, Number;
    var h, x := Pow2(held), Number(left[1..], 256);
    NumberStep(left);
    Pow2Words();
    Pow2Add(held, 8);
    FedByte(acc, left[0], h, x);
    if held < bits <= MAX_PACKED_BITS { FitsRegister(acc + left[0] * h, held + 8); }
  }

  lemma NumberStep(bs: seq<Byte>)
    requires bs != []
    ensures Number(bs, 256) == bs[0] + 256 * Number(bs[1..], 256)
  {
  }

  lemma FedByte(acc: int, byte: Byte, h: int, x: int)
    requires 0 <= acc < h
    ensures 0 <= acc + byte * h < h * 256
    ensures acc + h * (byte + 256 * x) == (acc + byte * h) + (h * 256) * x
  {
    MulOrder(0, byte, h);
    MulOrder(byte, 255, h);
    assert h * (256 * x) == (h * 256) * x;
  }

  lemma UnpackTake(out: seq<int>, acc: int, held: int, left: seq<Byte>, whole: int, bits: nat)
    requires Unpacking(out, acc, held, left, whole, bits) && held >= bits
    ensures Unpacking(out + [acc % Pow2(bits)], acc / Pow2(bits), held - bits, left, whole, bits)
  {
    hide Number;
    var b := Pow2(bits);
    Pow2Add(bits, held - bits);
    TakenValue(acc, b, Pow2(held - bits), Number(left, 256), Power(b, |out|));
    NumberAppend(out, acc % b, b);
    assert Power(b, |out| + 1) == b * Power(b, |out|);
  }

  lemma TakenValue(acc: int, b: int, h: int, x: int, p: int)
    requires b > 0 && 0 <= acc < b * h
    ensures 0 <= acc % b < b && 0 <= acc / b < h
    ensures p * (acc + (b * h) * x) == p * (acc % b) + (b * p) * (acc / b + h * x)
  {
    var q, r := acc / b, acc % b;
    assert acc == b * q + r;
    if q >= h { MulOrder(h, q, b); }
    if q < 0 { MulOrder(q, -1, b); }
    assert acc + (b * h) * x == r + b * (q + h * x) by { assert (b * h) * x == b * (h * x); }
    assert p * (b * (q + h * x)) == (b * p) * (q + h * x);
  }

  lemma {:induction false} DigitsPrefix(ds: seq<int>, base: nat, x: nat)
    requires base > 0 && Below(ds, base)
    ensures Number(ds, base) + Power(base, |ds|) * x >= 0
    ensures Digits(Number(ds, base) + Power(base, |ds|) * x, base, |ds|) == ds
  {
    NumberBound(ds, base);
    MulOrder(0, x, Power(base, |ds|));
    if ds != [] {
      DigitsPrefix(ds[1..], base, x);
      var rest := Number(ds[1..], base) + Power(base, |ds| - 1) * x;
      Distribute(base, Number(ds[1..], base), Power(base, |ds| - 1), x);
      DivModUnique(ds[0] + base * rest, base, rest, ds[0]);
    }
  }

  lemma UnpackEnd(out: seq<int>, acc: int, held: int, left: seq<Byte>, whole: nat, bits: nat)
    requires Unpacking(out, acc, held, left, whole, bits)
    ensures Digits(whole, Pow2(bits), |out|) == out
  {
    NumberBound(left, 256);
    MulOrder(0, Number(left, 256), Pow2(held));
    DigitsPrefix(out, Pow2(bits), acc + Pow2(held) * Number(left, 256));
  }

  lemma {:induction false} OnesAreZero(x: nat, n: nat)
    ensures Digits(x, 1, n) == seq(n, _ => 0)
    decreases n
  {
    if n > 0 {
      OnesAreZero(x, n - 1);
    }
  }

  lemma NothingUnpacked(bs: seq<Byte>, n: nat)
    ensures Unpacked(bs, n, 0) == Got(seq(n, _ => 0), bs)
  {
    OnesAreZero(0, n);
  }

  function TotalBits(n: nat, bits: nat): nat { n * bits }

  /** `left` bits hold the `k` values still to come. */
  ghost predicate Remaining(left: int, bits: nat, k: int) {
    k >= 0 && left == bits * k
  }

  lemma RemainingStart(n: nat, bits: nat)
    ensures Remaining(TotalBits(n, bits), bits, n) && TotalBits(n, bits) <= 8 * PackedBytes(n, bits)
  {
    RoundedUp(n * bits);
  }

  lemma RemainingStep(left: int, bits: nat, k: int)
    requires Remaining(left, bits, k) && k > 0
    ensures left >= bits && Remaining(left - bits, bits, k - 1)
  {
    MulOrder(1, k, bits);
    assert bits * (k - 1) == bits * k - bits;
  }

  /** Unpacks `n` values at `start` into the buffer. */
  method Unpack(data: seq<Byte>, start: nat, n: nat, bits: nat, out: array<U64>) returns (ok: bool, p: nat)
    requires start <= |data| && n <= out.Length && bits <= MAX_PACKED_BITS
    modifies out
    ensures p <= |data|
    ensures (if ok then Got(out[..n], data[p..]) else Malformed) == Unpacked(data[start..], n, bits)
  {
    hide Unpacking, Pow2, Number, Digits, PackedBytes, Remaining, TotalBits, Shifted, ToU64;
    if bits == 0 {
      NothingUnpacked(data[start..], n);
      for i := 0 to n
        invariant out[..i] == seq(i, _ => 0)
      {
        out[i] := 0;
      }
      return true, start;
    }
    var need := PackedBytes(n, bits);
    if |data| - start < need { return false, start; }
    ghost var bs := data[start..start + need];
    NumberBound(bs, 256);
    ghost var whole := Number(bs, 256);
    var acc, held, q, i := 0, 0, start, 0;
    ghost var left := TotalBits(n, bits);
    RemainingStart(n, bits);
    UnpackStart(bs, bits);
    assert bs[0..] == bs;
    while i < n
      invariant 0 <= i <= n && start <= q <= start + need && 0 <= acc && 0 <= held
      invariant Remaining(left, bits, n - i) && 8 * (q - start) == TotalBits(n, bits) - left + held
      invariant Unpacking(out[..i], acc, held, bs[q - start..], whole, bits)
    {
      RemainingStep(left, bits, n - i);
      ghost var done := out[..i];
      while held < bits
        invariant 0 <= acc && 0 <= held && start <= q <= start + need && 8 * (q - start) == TotalBits(n, bits) - left + held
        invariant Unpacking(done, acc, held, bs[q - start..], whole, bits)
        decreases bits - held
        modifies {}
      {
        assert bs[q - start..][0] == data[q] && bs[q - start..][1..] == bs[q + 1 - start..];
        UnpackFeed(done, acc, held, bs[q - start..], whole, bits);
        acc := ToU64(acc + Shifted(data[q], held));
        q := q + 1;
        held := held + 8;
      }
      UnpackTake(done, acc, held, bs[q - start..], whole, bits);
      TakenSizes(acc, bits);
      out[i] := acc % Pow2(bits);
      assert out[..i + 1] == done + [acc % Pow2(bits)];
      acc := acc / Pow2(bits);
      held := held - bits;
      left := left - bits;
      i := i + 1;
    }
    UnpackEnd(out[..n], acc, held, bs[q - start..], whole, bits);
    assert data[start..][..need] == bs && data[start..][need..] == data[start + need..];
    return true, start + need;
  }

  lemma TakenSizes(acc: nat, bits: nat)
    requires bits <= 64
    ensures 0 <= acc % Pow2(bits) < TWO_64 && 0 <= acc / Pow2(bits)
  {
    hide Pow2;
    Pow2Words();
    Pow2Grows(bits, 64);
    DigitBound(acc, Pow2(bits));
  }

  // ----- whole words --------------------------------------------------------------------------

  /** Byte `k` of a word, counted from the low end. */
  function ByteOf(v: U64, k: nat): (r: Byte)
  {
    v / Pow2(8 * k) % 256
  }

  lemma {:induction false} DigitsAppend(x: nat, k: nat)
    ensures Digits(x, 256, k + 1) == Digits(x, 256, k) + [x / Pow2(8 * k) % 256]
    decreases k
  {
    if k > 0 {
      DigitsAppend(x / 256, k - 1);
      Pow2Words();
      Pow2Add(8, 8 * k - 8);
      DivDiv(x, 256, Pow2(8 * k - 8), Pow2(8 * k));
    }
  }

  lemma DivDiv(x: nat, a: nat, b: nat, ab: nat)
    requires a > 0 && b > 0 && ab == a * b > 0
    ensures x / a / b == x / ab
  {
    var q, r := x / a, x % a;
    DivDivBy(x, a, b, ab, q, r, q / b, q % b);
  }

  lemma DivDivBy(x: nat, a: nat, b: nat, ab: nat, q: nat, r: nat, q': nat, r': nat)
    requires x == a * q + r && r < a && q == b * q' + r' && r' < b && ab == a * b > 0
    ensures q' == x / ab
  {
    Distribute(a, r', b, q');
    DigitRoom(r, r', b, a);
    DivModUnique(x, ab, q', a * r' + r);
  }

  /** `out` spells the first `i` words. */
  ghost predicate Written(out: seq<Byte>, values: seq<U64>, i: int) {
    0 <= i <= |values| && |out| == 8 * i && Number(out, 256) == Number(Low(values[..i], 64), Pow2(64))
  }

  lemma WordPlace(i: nat)
    ensures Power(256, 8 * i) == Power(Pow2(64), i)
  {
    hide Pow2, Power;
    Pow2Words();
    PowerOfPow2(8, 8 * i);
    PowerOfPow2(64, i);
  }

  lemma WholeWord(v: U64)
    ensures Number(Digits(v, 256, 8), 256) == v && LowBits(v, 64) == v
  {
    Pow2Words();
    PowerOfPow2(8, 8);
    NumberOfDigits(v, 256, 8);
    DivModUnique(v, Pow2(64), 0, v);
  }

  lemma WordWritten(out: seq<Byte>, values: seq<U64>, i: int)
    requires Written(out, values, i) && i < |values|
    ensures Written(out + Digits(values[i], 256, 8), values, i + 1)
  {
    hide Pow2, Power, Number, Digits, LowBits, Low;
    var v := values[i];
    WholeWord(v);
    NumberConcat(out, Digits(v, 256, 8), 256);
    LowAppend(values, i, 64);
    NumberAppend(Low(values[..i], 64), LowBits(v, 64), Pow2(64));
    WordPlace(i);
  }

  lemma WordsEnd(out: seq<Byte>, values: seq<U64>)
    requires Written(out, values, |values|)
    ensures out == Packed(values, 64)
  {
    hide Pow2, Power, Number, Digits;
    assert values[..|values|] == values;
    DigitsOfNumber(out, 256);
  }

  /** Writes the first `n` values of the buffer as whole words, low byte first. */
  method WriteWords(values: array<U64>, n: nat, before: seq<Byte>) returns (out: seq<Byte>)
    requires n <= values.Length
    ensures out == before + Packed(values[..n], 64)
  {
    hide Written, Packed, Digits, ByteOf;
    out := before;
    ghost var done: seq<Byte> := [];
    NoWords(values[..n]);
    for j := 0 to n
      invariant out == before + done && Written(done, values[..n], j)
    {
      NoDigits(values[j]);
      for b := 0 to 8
        invariant out == before + done + Digits(values[j], 256, b)
      {
        NextByte(values[j], b);
        out := out + [ByteOf(values[j], b)];
      }
      WordWritten(done, values[..n], j);
      done := done + Digits(values[j], 256, 8);
    }
    WordsEnd(done, values[..n]);
  }

  lemma NoWords(values: seq<U64>)
    ensures Written([], values, 0)
  {
  }

  lemma NoDigits(v: U64)
    ensures Digits(v, 256, 0) == []
  {
  }

  lemma NextByte(v: U64, b: nat)
    ensures Digits(v, 256, b + 1) == Digits(v, 256, b) + [ByteOf(v, b)]
  {
    DigitsAppend(v, b);
  }

  /** The first `i` words read spell the bytes they came from. */
  ghost predicate ReadWordsAre(out: seq<int>, bs: seq<Byte>, i: int) {
    && 0 <= 8 * i <= |bs| && |out| == i && Below(out, Pow2(64))
    && Number(out, Pow2(64)) == Number(bs[..8 * i], 256)
  }

  lemma WordRead(out: seq<int>, bs: seq<Byte>, i: int, v: int)
    requires ReadWordsAre(out, bs, i) && 8 * i + 8 <= |bs| && v == Number(bs[8 * i..8 * i + 8], 256)
    ensures 0 <= v < TWO_64 && ReadWordsAre(out + [v], bs, i + 1)
  {
    hide Pow2, Power, Number;
    var word := bs[8 * i..8 * i + 8];
    NumberBound(word, 256);
    Pow2Words();
    PowerOfPow2(8, 8);
    assert bs[..8 * (i + 1)] == bs[..8 * i] + word;
    NumberConcat(bs[..8 * i], word, 256);
    NumberAppend(out, v, Pow2(64));
    WordPlace(i);
  }

  lemma WordsRead(out: seq<int>, bs: seq<Byte>, n: nat)
    requires ReadWordsAre(out, bs, n) && |bs| == 8 * n
    ensures Number(bs, 256) >= 0 && Digits(Number(bs, 256), Pow2(64), n) == out
  {
    hide Pow2, Power, Number, Digits;
    NumberBound(bs, 256);
    assert bs[..8 * n] == bs;
    DigitsOfNumber(out, Pow2(64));
  }

  lemma BytePlaced(word: seq<Byte>, b: nat, v: int)
    requires b < 8 && b < |word| && v == Number(word[..b], 256)
    ensures v >= 0 && ToU64(v + Shifted(word[b], 8 * b)) == Number(word[..b + 1], 256)
  {
    hide Pow2, Power, Number;
    assert word[..b + 1] == word[..b] + [word[b]];
    NumberAppend(word[..b], word[b], 256);
    NumberBound(word[..b], 256);
    NumberBound(word[..b + 1], 256);
    Pow2Words();
    PowerOfPow2(8, b);
    PowerOfPow2(8, b + 1);
    Pow2Grows(8 * (b + 1), 64);
    assert Power(256, b) * word[b] == word[b] * Pow2(8 * b);
  }

  /** Reads `n` whole words at `start` into the buffer. */
  method ReadWords(data: seq<Byte>, start: nat, n: nat, out: array<U64>) returns (ok: bool, p: nat)
    requires start <= |data| && n <= out.Length
    modifies out
    ensures p <= |data|
    ensures (if ok then Got(out[..n], data[p..]) else Malformed) == Unpacked(data[start..], n, 64)
  {
    hide ReadWordsAre, Pow2, Number, Digits, Shifted, ToU64, Unpacked;
    UnpackedWords(data[start..], n);
    if |data| - start < 8 * n { return false, start; }
    ghost var bs := data[start..start + 8 * n];
    NoneRead(bs);
    p := start;
    for j := 0 to n
      invariant p == start + 8 * j && ReadWordsAre(out[..j], bs, j)
    {
      var v: U64 := 0;
      ghost var done := out[..j];
      ghost var word := bs[8 * j..8 * j + 8];
      NumberOfNothing();
      assert word[..0] == [];
      for b := 0 to 8
        invariant p == start + 8 * j + b && v == Number(word[..b], 256)
        modifies {}
      {
        BytePlaced(word, b, v);
        assert word[b] == data[p];
        v := ToU64(v + Shifted(data[p], 8 * b));
        p := p + 1;
      }
      assert word[..8] == word;
      WordRead(done, bs, j, v);
      out[j] := v;
      assert out[..j + 1] == done + [v];
    }
    WordsRead(out[..n], bs, n);
    assert data[start..][..8 * n] == bs && data[start..][8 * n..] == data[p..];
    return true, p;
  }

  lemma UnpackedWords(bs: seq<Byte>, n: nat)
    ensures |bs| < 8 * n ==> Unpacked(bs, n, 64) == Malformed
    ensures |bs| >= 8 * n ==>
              Number(bs[..8 * n], 256) >= 0 && Unpacked(bs, n, 64) == Got(Digits(Number(bs[..8 * n], 256), Pow2(64), n), bs[8 * n..])
  {
    hide Pow2, Number, Digits;
    if |bs| >= 8 * n { NumberBound(bs[..8 * n], 256); }
  }

  lemma NumberOfNothing()
    ensures Number([], 256) == 0
  {
  }

  lemma NoneRead(bs: seq<Byte>)
    ensures ReadWordsAre([], bs, 0)
  {
    assert bs[..0] == [];
  }
}
