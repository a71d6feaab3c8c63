/** The checksum of RFC 1952, section 8: the table-driven loop, the bit-serial division it stands for,
    and the damage it cannot miss. */
module Crc {
  import opened Words

  function Bits(b: Byte): bv32 { (b as bv8) as bv32 }

  function Xor(a: bv32, b: bv32): bv32 { a ^ b }

  function Up(y: bv32): bv32 { y << 1 }

  function Up8(y: bv32): bv32 { y << 8 }

  function Down(c: bv32): bv32 { c >> 1 }

  predicate LowBit(c: bv32) { c & 1 != 0 }

  /** Subtracts the (reflected) generator polynomial. */
  function Reduced(c: bv32): bv32 { 0xEDB8_8320 ^ c }

  /** One bit of the division, low bit first. */
  function Shift1(c: bv32): bv32 {
    if LowBit(c) then Reduced(Down(c)) else Down(c)
  }

  function ShiftBy(c: bv32, n: nat): bv32
    decreases n
  {
    if n == 0 then c else ShiftBy(Shift1(c), n - 1)
  }

  /** Divides a buffer bit by bit, starting from register `c`. */
  function Remainder(c: bv32, bs: seq<Byte>): bv32
    decreases |bs|
  {
    if bs == [] then c else Remainder(ShiftBy(Xor(c, Bits(bs[0])), 8), bs[1..])
  }

  function Checksum(bs: seq<Byte>, seed: bv32): bv32 {
    Xor(Remainder(Xor(seed, 0xFFFF_FFFF), bs), 0xFFFF_FFFF)
  }

  // ----- registers ----------------------------------------------------------------------------

  lemma XorAssociates(a: bv32, b: bv32, c: bv32)
    ensures Xor(Xor(a, b), c) == Xor(a, Xor(b, c))
  {
  }

  lemma XorCancels(a: bv32, b: bv32, c: bv32)
    requires Xor(c, a) == Xor(c, b) || Xor(a, c) == Xor(b, c)
    ensures a == b
  {
    assert c ^ (c ^ a) == a && c ^ (c ^ b) == b && (a ^ c) ^ c == a && (b ^ c) ^ c == b;
  }

  predicate TopClear(y: bv32) { y & 0x8000_0000 == 0 }

  lemma LowBitKept(x: bv32, y: bv32)
    ensures LowBit(Xor(x, Up(y))) == LowBit(x)
  {
    assert (x ^ (y << 1)) & 1 == x & 1;
  }

  lemma HighBitsKept(x: bv32, y: bv32)
    requires TopClear(y)
    ensures Down(Xor(x, Up(y))) == Xor(Down(x), y)
  {
  }

  lemma ReducedXor(x: bv32, y: bv32)
    ensures Reduced(Xor(x, y)) == Xor(Reduced(x), y)
  {
  }

  /** A shift passes the bits above the lowest one straight down. */
  lemma Shift1Absorbs(x: bv32, y: bv32)
    requires TopClear(y)
    ensures Shift1(Xor(x, Up(y))) == Xor(Shift1(x), y)
  {
    hide LowBit, Down, Reduced, Xor, Up, TopClear;
    LowBitKept(x, y);
    HighBitsKept(x, y);
    ReducedXor(Down(x), y);
  }

  /** The top bit of the result tells which branch was taken, so no two registers merge. */
  lemma Shift1Injective(x: bv32, y: bv32)
    requires Shift1(x) == Shift1(y)
    ensures x == y
  {
  }

  lemma {:induction false} ShiftByInjective(x: bv32, y: bv32, n: nat)
    requires ShiftBy(x, n) == ShiftBy(y, n)
    ensures x == y
    decreases n
  {
    hide Shift1;
    if n > 0 {
      ShiftByInjective(Shift1(x), Shift1(y), n - 1);
      Shift1Injective(x, y);
    }
  }

  lemma {:induction false} ShiftByAdd(c: bv32, a: nat, b: nat)
    ensures ShiftBy(c, a + b) == ShiftBy(ShiftBy(c, a), b)
    decreases a
  {
    hide Shift1;
    if a > 0 {
      ShiftByAdd(Shift1(c), a - 1, b);
    }
  }

  function UpBy(y: bv32, n: nat): bv32 {
    if n == 0 then y else Up(UpBy(y, n - 1))
  }

  lemma {:induction false} ShiftAbsorbs(x: bv32, y: bv32, n: nat)
    requires forall k: nat :: k < n ==> TopClear(UpBy(y, k))
    ensures ShiftBy(Xor(x, UpBy(y, n)), n) == Xor(ShiftBy(x, n), y)
    decreases n
  {
    hide Shift1, Xor, Up, TopClear;
    if n > 0 {
      Shift1Absorbs(x, UpBy(y, n - 1));
      ShiftAbsorbs(Shift1(x), y, n - 1);
    }
  }

  lemma RoomAbove(y: bv32)
    requires Clear(y, 0xFF00_0000)
    ensures (y << 7) << 1 == y << 8 && (y << 6) << 1 == y << 7 && (y << 5) << 1 == y << 6 && (y << 4) << 1 == y << 5
    ensures (y << 3) << 1 == y << 4 && (y << 2) << 1 == y << 3 && (y << 1) << 1 == y << 2
    ensures TopClear(y << 7) && TopClear(y << 6) && TopClear(y << 5) && TopClear(y << 4)
    ensures TopClear(y << 3) && TopClear(y << 2) && TopClear(y << 1) && TopClear(y)
  {
  }

  predicate Clear(y: bv32, mask: bv32) { y & mask == 0 }

  /** The register holds at most `n` bytes. */
  predicate Narrow(y: bv32, n: nat) {
    if n == 0 then y == 0
    else if n == 1 then Clear(y, 0xFFFF_FF00)
    else if n == 2 then Clear(y, 0xFFFF_0000)
    else if n == 3 then Clear(y, 0xFF00_0000)
    else true
  }

  lemma UpByEight(y: bv32)
    requires Narrow(y, 3)
    ensures UpBy(y, 8) == Up8(y) && forall k: nat :: k < 8 ==> TopClear(UpBy(y, k))
  {
    hide TopClear, Clear;
    RoomAbove(y);
    assert UpBy(y, 1) == y << 1;
    assert UpBy(y, 2) == y << 2;
    assert UpBy(y, 3) == y << 3;
    assert UpBy(y, 4) == y << 4;
    assert UpBy(y, 5) == y << 5;
    assert UpBy(y, 6) == y << 6;
    assert UpBy(y, 7) == y << 7;
  }

  /** Eight shifts pass the bits above the lowest byte straight down. */
  lemma Shift8Absorbs(x: bv32, y: bv32)
    requires Narrow(y, 3)
    ensures ShiftBy(Xor(x, Up8(y)), 8) == Xor(ShiftBy(x, 8), y)
  {
    hide ShiftBy, Xor, Up8, UpBy, TopClear, Narrow;
    UpByEight(y);
    ShiftAbsorbs(x, y, 8);
  }

  // ----- the table ----------------------------------------------------------------------------

  ghost predicate IsTable(t: seq<bv32>) {
    |t| == 256 && forall i: Byte :: t[i] == ShiftBy(Bits(i), 8)
  }

  method BuildTable() returns (table: array<bv32>)
    ensures fresh(table) && IsTable(table[..])
  {
    hide Shift1, Bits, ShiftBy;
    table := new bv32[256](_ => 0);
    for i := 0 to 256
      invariant forall j: Byte :: j < i ==> table[j] == ShiftBy(Bits(j), 8)
    {
      var c := Bits(i);
      for k := 0 to 8
        invariant ShiftBy(c, 8 - k) == ShiftBy(Bits(i), 8)
        invariant forall j: Byte :: j < i ==> table[j] == ShiftBy(Bits(j), 8)
      {
        OneShift(c, 8 - k);
        c := if c & 1 != 0 then 0xEDB8_8320 ^ (c >> 1) else c >> 1;
      }
      NoShift(c);
      table[i] := c;
    }
  }

  lemma OneShift(c: bv32, n: nat)
    requires n > 0
    ensures ShiftBy(c, n) == ShiftBy(if c & 1 != 0 then 0xEDB8_8320 ^ (c >> 1) else c >> 1, n - 1)
  {
  }

  lemma NoShift(c: bv32)
    ensures ShiftBy(c, 0) == c
  {
  }

  function LowByte(x: bv32): (i: Byte) {
    (x & 0xFF) as bv8 as int
  }

  function Rest(x: bv32): bv32 { x >> 8 }

  lemma BitsOfLowByte(x: bv32)
    ensures Bits(LowByte(x)) == x & 0xFF
  {
    ByteBack((x & 0xFF) as bv8);
    LowByteFits(x);
  }

  lemma ByteBack(w: bv8)
    ensures (w as int) as bv8 == w
  {
  }

  lemma LowByteFits(x: bv32)
    ensures ((x & 0xFF) as bv8) as bv32 == x & 0xFF
  {
  }

  lemma BytesOfRegister(x: bv32)
    ensures x == Xor(Bits(LowByte(x)), Up8(Rest(x))) && Narrow(Rest(x), 3)
  {
    BitsOfLowByte(x);
    assert x == (x & 0xFF) ^ ((x >> 8) << 8);
  }

  lemma ByteIsNarrow(b: Byte)
    ensures Narrow(Bits(b), 1)
  {
  }

  lemma RestUnmoved(c: bv32, b: Byte)
    ensures Rest(Xor(c, Bits(b))) == Rest(c)
  {
    ByteIsNarrow(b);
    RestOfNarrow(c, Bits(b));
  }

  lemma RestOfNarrow(c: bv32, y: bv32)
    requires Clear(y, 0xFFFF_FF00)
    ensures (c ^ y) >> 8 == c >> 8
  {
  }

  /** One lookup does the work of eight shifts. */
  lemma LookupIsDivision(table: seq<bv32>, c: bv32, b: Byte)
    requires IsTable(table)
    ensures Xor(table[LowByte(Xor(c, Bits(b)))], Rest(c)) == ShiftBy(Xor(c, Bits(b)), 8)
  {
    hide ShiftBy, Xor, Bits, LowByte, Rest, Up8, Narrow;
    var x := Xor(c, Bits(b));
    BytesOfRegister(x);
    Shift8Absorbs(Bits(LowByte(x)), Rest(x));
    RestUnmoved(c, b);
  }

  /** The table-driven loop computes the bit-serial remainder. */
  method Crc32(data: seq<Byte>, table: array<bv32>, seed: bv32) returns (crc: bv32)
    requires IsTable(table[..])
    ensures crc == Checksum(data, seed)
  {
    hide ShiftBy, Xor, Bits, LowByte, Rest, IsTable;
    var c := Xor(seed, 0xFFFF_FFFF);
    assert data[0..] == data;
    for i := 0 to |data|
      invariant Remainder(c, data[i..]) == Remainder(Xor(seed, 0xFFFF_FFFF), data)
    {
      assert data[i..][0] == data[i] && data[i..][1..] == data[i + 1..];
      LookupIsDivision(table[..], c, data[i]);
      TableSize(table[..]);
      c := Xor(table[LowByte(Xor(c, Bits(data[i])))], Rest(c));
    }
    crc := Xor(c, 0xFFFF_FFFF);
  }

  lemma TableSize(t: seq<bv32>)
    requires IsTable(t)
    ensures |t| == 256
  {
  }

  lemma {:induction false} RemainderConcat(c: bv32, a: seq<Byte>, b: seq<Byte>)
    ensures Remainder(c, a + b) == Remainder(Remainder(c, a), b)
    decreases |a|
  {
    hide ShiftBy, Xor, Bits;
    if a == [] {
      assert a + b == b;
    } else {
      assert (a + b)[1..] == a[1..] + b;
      RemainderConcat(ShiftBy(Xor(c, Bits(a[0])), 8), a[1..], b);
    }
  }

  /** Seeding with the checksum of what came before continues it. */
  lemma ChecksumChains(a: seq<Byte>, b: seq<Byte>, seed: bv32)
    ensures Checksum(a + b, seed) == Checksum(b, Checksum(a, seed))
  {
    hide ShiftBy, Bits;
    RemainderConcat(Xor(seed, 0xFFFF_FFFF), a, b);
    XorAssociates(Remainder(Xor(seed, 0xFFFF_FFFF), a), 0xFFFF_FFFF, 0xFFFF_FFFF);
  }

  // ----- damage -------------------------------------------------------------------------------

  /** Up to four bytes as one register, low byte first. */
  function Word(bs: seq<Byte>): bv32 {
    if bs == [] then 0 else Xor(Bits(bs[0]), Up8(Word(bs[1..])))
  }

  lemma NarrowUp(x: bv32, y: bv32, n: nat)
    requires Narrow(x, 1) && Narrow(y, n)
    ensures Narrow(Xor(x, Up8(y)), n + 1)
  {
    hide Xor, Up8, Clear;
    MixedMasks(x, y);
  }

  lemma MixedMasks(x: bv32, y: bv32)
    requires Clear(x, 0xFFFF_FF00)
    ensures y == 0 ==> Clear(Xor(x, Up8(y)), 0xFFFF_FF00)
    ensures Clear(y, 0xFFFF_FF00) ==> Clear(Xor(x, Up8(y)), 0xFFFF_0000)
    ensures Clear(y, 0xFFFF_0000) ==> Clear(Xor(x, Up8(y)), 0xFF00_0000)
  {
  }

  lemma {:induction false} WordNarrow(bs: seq<Byte>)
    ensures Narrow(Word(bs), |bs|)
  {
    hide Bits, Xor, Up8, Narrow;
    if bs == [] {
      ZeroNarrow();
    } else {
      WordNarrow(bs[1..]);
      ByteIsNarrow(bs[0]);
      NarrowUp(Bits(bs[0]), Word(bs[1..]), |bs| - 1);
    }
  }

  lemma ZeroNarrow()
    ensures Narrow(0, 0)
  {
  }

  lemma NarrowWidens(y: bv32, n: nat)
    requires Narrow(y, n) && n <= 3
    ensures Narrow(y, 3)
  {
    hide Clear;
    Masks(y);
  }

  lemma Masks(y: bv32)
    ensures y == 0 ==> Clear(y, 0xFF00_0000)
    ensures Clear(y, 0xFFFF_FF00) ==> Clear(y, 0xFF00_0000)
    ensures Clear(y, 0xFFFF_0000) ==> Clear(y, 0xFF00_0000)
  {
  }

  lemma XorZero(c: bv32)
    ensures Xor(c, 0) == c
  {
  }

  /** Dividing up to four bytes is one long shift of the register with the bytes mixed in. */
  lemma {:induction false} RemainderOfWord(c: bv32, bs: seq<Byte>)
    requires |bs| <= 4
    ensures Remainder(c, bs) == ShiftBy(Xor(c, Word(bs)), 8 * |bs|)
    decreases |bs|
  {
    hide ShiftBy, Bits, Xor, Up8, Narrow;
    if bs == [] {
      XorZero(c);
      NoShift(c);
    } else {
      var w := Word(bs[1..]);
      var x := Xor(c, Bits(bs[0]));
      WordNarrow(bs[1..]);
      NarrowWidens(w, |bs| - 1);
      Shift8Absorbs(x, w);
      RemainderOfWord(ShiftBy(x, 8), bs[1..]);
      XorAssociates(c, Bits(bs[0]), Up8(w));
      ShiftByAdd(Xor(c, Word(bs)), 8, 8 * (|bs| - 1));
    }
  }

  lemma BitsInjective(a: Byte, b: Byte)
    requires Bits(a) == Bits(b)
    ensures a == b
  {
    Widened(a as bv8, b as bv8);
    ByteKept(a);
    ByteKept(b);
  }

  lemma Widened(x: bv8, y: bv8)
    requires x as bv32 == y as bv32
    ensures x == y
  {
  }

  lemma ByteKept(a: Byte)
    ensures (a as bv8) as int == a
  {
    var w := Reaches(a);
    ByteBack(w);
  }

  lemma CountsUp(w: bv8)
    requires w != 255
    ensures (w + 1) as int == w as int + 1
  {
  }

  /** Every byte value is that of some eight bits. */
  lemma {:induction false} Reaches(n: nat) returns (w: bv8)
    requires n < 256
    ensures w as int == n
  {
    if n == 0 { return 0; }
    var v := Reaches(n - 1);
    assert v != 255;
    CountsUp(v);
    w := v + 1;
  }

  lemma MixedInjective(a: bv32, y: bv32, b: bv32, z: bv32)
    requires Narrow(a, 1) && Narrow(b, 1) && Narrow(y, 3) && Narrow(z, 3)
    requires Xor(a, Up8(y)) == Xor(b, Up8(z))
    ensures a == b && y == z
  {
    hide Xor, Up8, Clear, Rest;
    MixedParts(a, y);
    MixedParts(b, z);
  }

  lemma MixedParts(a: bv32, y: bv32)
    requires Clear(a, 0xFFFF_FF00) && Clear(y, 0xFF00_0000)
    ensures Xor(a, Up8(y)) & 0xFF == a && Rest(Xor(a, Up8(y))) == y
  {
  }

  lemma {:induction false} WordInjective(a: seq<Byte>, b: seq<Byte>)
    requires |a| == |b| <= 4 && Word(a) == Word(b)
    ensures a == b
  {
    hide Bits, Xor, Up8, Narrow;
    if a != [] {
      WordNarrow(a[1..]);
      WordNarrow(b[1..]);
      NarrowWidens(Word(a[1..]), |a| - 1);
      NarrowWidens(Word(b[1..]), |b| - 1);
      ByteIsNarrow(a[0]);
      ByteIsNarrow(b[0]);
      MixedInjective(Bits(a[0]), Word(a[1..]), Bits(b[0]), Word(b[1..]));
      BitsInjective(a[0], b[0]);
      WordInjective(a[1..], b[1..]);
      assert a == [a[0]] + a[1..] && b == [b[0]] + b[1..];
    }
  }

  lemma {:induction false} RemainderInjective(c: bv32, d: bv32, bs: seq<Byte>)
    requires Remainder(c, bs) == Remainder(d, bs)
    ensures c == d
    decreases |bs|
  {
    hide ShiftBy, Bits, Xor;
    if bs != [] {
      var x, y := Xor(c, Bits(bs[0])), Xor(d, Bits(bs[0]));
      RemainderInjective(ShiftBy(x, 8), ShiftBy(y, 8), bs[1..]);
      ShiftByInjective(x, y, 8);
      XorCancels(c, d, Bits(bs[0]));
    }
  }

  /** Replacing up to four consecutive bytes by different ones always changes the checksum. */
  lemma BurstDetected(before: seq<Byte>, a: seq<Byte>, b: seq<Byte>, after: seq<Byte>, seed: bv32)
    requires |a| == |b| <= 4 && a != b
    ensures Checksum(before + a + after, seed) != Checksum(before + b + after, seed)
  {
    hide ShiftBy, Bits, Xor, Word;
    var c0 := Xor(seed, 0xFFFF_FFFF);
    var c := Remainder(c0, before);
    RemainderConcat(c0, before + a, after);
    RemainderConcat(c0, before + b, after);
    RemainderConcat(c0, before, a);
    RemainderConcat(c0, before, b);
    if Checksum(before + a + after, seed) == Checksum(before + b + after, seed) {
      XorCancels(Remainder(c0, before + a + after), Remainder(c0, before + b + after), 0xFFFF_FFFF);
      RemainderInjective(Remainder(c, a), Remainder(c, b), after);
      RemainderOfWord(c, a);
      RemainderOfWord(c, b);
      ShiftByInjective(Xor(c, Word(a)), Xor(c, Word(b)), 8 * |a|);
      XorCancels(Word(a), Word(b), c);
      WordInjective(a, b);
    }
  }

  /** The same, said of two buffers: equal lengths, different, and alike outside a window of four bytes. */
  lemma WindowDetected(xs: seq<Byte>, ys: seq<Byte>, at: nat, seed: bv32)
    requires |xs| == |ys| && xs != ys
    requires forall i :: 0 <= i < |xs| && !(at <= i < at + 4) ==> xs[i] == ys[i]
    ensures Checksum(xs, seed) != Checksum(ys, seed)
  {
    var n := |xs|;
    var i := if at < n then at else n;
    var j := if at + 4 < n then at + 4 else n;
    assert xs == xs[..i] + xs[i..j] + xs[j..] && ys == xs[..i] + ys[i..j] + xs[j..];
    BurstDetected(xs[..i], xs[i..j], ys[i..j], xs[j..], seed);
  }
}
