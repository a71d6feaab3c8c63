/** Machine words as bounded integers with their wrap-around written out, powers of two, and numbers
    written in little-endian digits. */
module Words {
  const TWO_64: int := 0x1_0000_0000_0000_0000
  const TWO_63: int := 0x8000_0000_0000_0000

  type Byte = x: int | 0 <= x < 256
  type U64 = x: int | 0 <= x < 0x1_0000_0000_0000_0000
  type I64 = x: int | -0x8000_0000_0000_0000 <= x < 0x8000_0000_0000_0000

  /** The value a 64-bit unsigned register keeps. */
  function ToU64(x: int): U64 { x % 0x1_0000_0000_0000_0000 }

  /** The same register read as a signed number. */
  function ToI64(u: U64): I64 {
    if u < 0x8000_0000_0000_0000 then u else u - 0x1_0000_0000_0000_0000
  }

  /** The low 32 bits, as a signed number: what a cast to a 32-bit integer keeps. */
  function Cast32(x: int): int {
    var u := x % 0x1_0000_0000;
    if u < 0x8000_0000 then u else u - 0x1_0000_0000
  }

  lemma SignedRoundTrip(x: I64)
    ensures ToI64(ToU64(x)) == x
  {
  }

  lemma UnsignedRoundTrip(u: U64)
    ensures ToU64(ToI64(u)) == u
  {
  }

  // ----- powers of two ------------------------------------------------------------------------

  function Pow2(n: nat): (r: nat)
    ensures r > 0
  {
    if n == 0 then 1 else 2 * Pow2(n - 1)
  }

  lemma {:induction false} Pow2Add(a: nat, b: nat)
    ensures Pow2(a + b) == Pow2(a) * Pow2(b)
  {
    if b > 0 {
      Pow2Add(a, b - 1);
      assert Pow2(a + b) == 2 * Pow2(a + b - 1);
    }
  }

  lemma {:induction false} Pow2Grows(a: nat, b: nat)
    requires a <= b
    ensures Pow2(a) <= Pow2(b)
  {
    if a < b {
      Pow2Grows(a, b - 1);
    }
  }

  lemma Pow2Words()
    ensures Pow2(7) == 128 && Pow2(8) == 256 && Pow2(63) == TWO_63 && Pow2(64) == TWO_64
  {
    assert Pow2(7) == 128 && Pow2(8) == 256;
    Pow2Add(8, 8);
    Pow2Add(16, 16);
    Pow2Add(32, 31);
    Pow2Add(32, 32);
    assert Pow2(32) == 2 * Pow2(31);
  }

  // ----- division -----------------------------------------------------------------------------

  lemma DivModUnique(x: int, d: int, q: int, r: int)
    requires d > 0 && 0 <= r < d && x == q * d + r
    ensures q == x / d && r == x % d
  {
    var q', r' := x / d, x % d;
    assert (q - q') * d == r' - r;
    if q > q' { MulGrows(q - q', d); } else if q < q' { MulGrows(q' - q, d); }
  }

  lemma MulGrows(a: int, d: int)
    requires a >= 1 && d > 0
    ensures a * d >= d
  {
  }

  lemma MulOrder(a: int, b: int, d: int)
    requires a <= b && d >= 0
    ensures a * d <= b * d
  {
  }

  /** A product under a name, so that proofs that only move it around need not look inside. */
  function Times(a: int, b: int): int { a * b }

  lemma TimesOne(a: int)
    ensures Times(a, 1) == a
  {
  }

  lemma TimesStep(a: int, b: int)
    ensures Times(a, b + 1) == Times(a, b) + a && Times(a, 0) == 0
  {
  }

  /** Multiplying before or after the wrap leaves the same register. */
  lemma WrapMul(x: int, s: int)
    ensures ToU64(Times(ToU64(x), s)) == ToU64(Times(x, s))
  {
    var k, r := x / TWO_64, ToU64(x);
    var k', r' := (r * s) / TWO_64, ToU64(r * s);
    assert x * s == (k * TWO_64 + r) * s == (k * s) * TWO_64 + r * s;
    DivModUnique(x * s, TWO_64, k * s + k', r');
  }

  /** The register of a signed number. */
  lemma RegisterOf(x: I64)
    ensures ToU64(x) == if x >= 0 then x else x + TWO_64
  {
  }

  /** Numbers that differ by a multiple of 2^64 share a register, and only those do. */
  lemma WrapUnique(x: int, u: U64, k: int)
    requires x == u + k * TWO_64
    ensures ToU64(x) == u
  {
    DivModUnique(x, TWO_64, k, u);
  }

  lemma WrapAdd(x: int, y: int)
    ensures ToU64(x + ToU64(y)) == ToU64(x + y)
  {
    var k, k' := y / TWO_64, (x + ToU64(y)) / TWO_64;
    WrapUnique(x + y, ToU64(x + ToU64(y)), k + k');
  }

  // ----- digits -------------------------------------------------------------------------------

  ghost predicate Below(ds: seq<int>, base: nat) {
    forall i :: 0 <= i < |ds| ==> 0 <= ds[i] < base
  }

  function Power(base: nat, n: nat): nat {
    if n == 0 then 1 else base * Power(base, n - 1)
  }

  /** The number whose little-endian digits are `ds`. */
  function Number(ds: seq<int>, base: nat): int {
    if ds == [] then 0 else ds[0] + base * Number(ds[1..], base)
  }

  /** The `n` low digits of a number. */
  function Digits(x: nat, base: nat, n: nat): (ds: seq<int>)
    requires base > 0
    ensures |ds| == n && Below(ds, base)
    decreases n
  {
    if n == 0 then [] else DigitBound(x, base); [x % base] + Digits(x / base, base, n - 1)
  }

  lemma DigitBound(x: nat, base: nat)
    requires base > 0
    ensures 0 <= x % base < base && x / base >= 0
  {
  }

  lemma {:induction false} NumberBound(ds: seq<int>, base: nat)
    requires Below(ds, base)
    ensures 0 <= Number(ds, base) < Power(base, |ds|)
  {
    if ds != [] {
      NumberBound(ds[1..], base);
      DigitRoom(ds[0], Number(ds[1..], base), Power(base, |ds| - 1), base);
    }
  }

  lemma DigitRoom(d: int, x: int, p: int, base: int)
    requires 0 <= d < base && 0 <= x < p
    ensures 0 <= d + base * x < base * p
  {
    MulOrder(0, x, base);
    MulOrder(x, p - 1, base);
  }

  lemma Distribute(base: int, x: int, p: int, y: int)
    ensures base * (x + p * y) == base * x + (base * p) * y
  {
  }

  /** Writing a number out in digits and reading it back, in both directions. */
  lemma {:induction false} DigitsOfNumber(ds: seq<int>, base: nat)
    requires Below(ds, base) && base > 0
    ensures Number(ds, base) >= 0 && Digits(Number(ds, base), base, |ds|) == ds
  {
    NumberBound(ds, base);
    if ds != [] {
      DigitsOfNumber(ds[1..], base);
      DivModUnique(Number(ds, base), base, Number(ds[1..], base), ds[0]);
    }
  }

  lemma DivMod(x: nat, base: nat)
    requires base > 0
    ensures x == base * (x / base) + x % base
  {
  }

  lemma QuotientBelow(x: nat, base: nat, p: nat)
    requires base > 0 && x < base * p
    ensures 0 <= x / base < p
  {
    DigitBound(x, base);
    DivMod(x, base);
    TooBig(x / base, p, base, x);
  }

  lemma TooBig(q: nat, p: nat, base: nat, x: nat)
    requires base * q <= x < base * p
    ensures q < p
  {
    if q >= p { MulOrder(p, q, base); }
  }

  lemma DigitsStep(x: nat, base: nat, n: nat)
    requires base > 0 && n > 0
    ensures x / base >= 0 && Number(Digits(x, base, n), base) == x % base + base * Number(Digits(x / base, base, n - 1), base)
  {
    DigitBound(x, base);
    assert Digits(x, base, n)[1..] == Digits(x / base, base, n - 1);
  }

  lemma {:induction false} NumberOfDigits(x: nat, base: nat, n: nat)
    requires base > 0 && x < Power(base, n)
    ensures Number(Digits(x, base, n), base) == x
    decreases n
  {
    hide Number, Digits;
    if n > 0 {
      QuotientBelow(x, base, Power(base, n - 1));
      NumberOfDigits(x / base, base, n - 1);
      DigitsStep(x, base, n);
      DivMod(x, base);
    } else {
      NoDigitsOf(x, base);
    }
  }

  lemma NoDigitsOf(x: nat, base: nat)
    requires base > 0
    ensures Number(Digits(x, base, 0), base) == 0
  {
  }

  lemma {:induction false} PowerOfPow2(bits: nat, n: nat)
    ensures Power(Pow2(bits), n) == Pow2(bits * n)
  {
    if n > 0 {
      PowerOfPow2(bits, n - 1);
      Pow2Add(bits, bits * (n - 1));
      assert bits + bits * (n - 1) == bits * n;
    } else {
      assert bits * n == 0;
    }
  }

  lemma {:induction false} NumberConcat(a: seq<int>, b: seq<int>, base: nat)
    ensures Number(a + b, base) == Number(a, base) + Power(base, |a|) * Number(b, base)
  {
    if a == [] {
      assert a + b == b;
    } else {
      assert (a + b)[1..] == a[1..] + b;
      NumberConcat(a[1..], b, base);
      Distribute(base, Number(a[1..], base), Power(base, |a| - 1), Number(b, base));
    }
  }

  lemma NumberAppend(ds: seq<int>, d: int, base: nat)
    ensures Number(ds + [d], base) == Number(ds, base) + Power(base, |ds|) * d
  {
    NumberConcat(ds, [d], base);
    assert Number([d], base) == d + base * Number([], base);
  }

  lemma NumberAppended(ds: seq<int>, d: int, base: nat)
    ensures Number(ds + [d], base) == Number(ds, base) + Times(Power(base, |ds|), d)
  {
    hide Number;
    NumberAppend(ds, d, base);
  }
}
