/** Packed little-endian records: a list of fixed-width fields, written and read back. */
module Layout {
  import opened Words

  /** Width in bytes, and whether the field is read back as a signed number. */
  datatype Field = Field(width: nat, signed: bool)

  const U8 := Field(1, false)
  const U16 := Field(2, false)
  const U32 := Field(4, false)
  const I32 := Field(4, true)
  const I64F := Field(8, true)

  function Range(f: Field): (r: int)
    ensures r > 0
  {
    RangePositive(256, f.width);
    Power(256, f.width)
  }

  predicate Holds(f: Field, v: int) {
    if f.signed then -Range(f) <= 2 * v < Range(f) else 0 <= v < Range(f)
  }

  /** The register of a field: the low bytes of the number. */
  function Register(f: Field, v: int): (r: nat)
    ensures r < Range(f)
  {
    ModBound(v, Range(f));
    v % Range(f)
  }

  lemma ModBound(v: int, m: nat)
    requires m > 0
    ensures 0 <= v % m < m
  {
  }

  lemma {:induction false} RangePositive(base: nat, n: nat)
    requires base > 0
    ensures Power(base, n) > 0
  {
    if n > 0 {
      RangePositive(base, n - 1);
    }
  }

  function PutField(f: Field, v: int): (bs: seq<Byte>)
    ensures |bs| == f.width
  {
    Digits(Register(f, v), 256, f.width)
  }

  function GetField(f: Field, bs: seq<Byte>): int {
    var u := Number(bs, 256);
    if f.signed && 2 * u >= Range(f) then u - Range(f) else u
  }

  lemma FieldRoundTrip(f: Field, v: int)
    requires Holds(f, v)
    ensures GetField(f, PutField(f, v)) == v
  {
    hide Digits, Number;
    var r := Range(f);
    NumberOfDigits(Register(f, v), 256, f.width);
    DivModUnique(v, r, if v < 0 then -1 else 0, if v < 0 then v + r else v);
  }

  /** Different bytes are a different number. */
  lemma FieldInjective(f: Field, a: seq<Byte>, b: seq<Byte>)
    requires |a| == |b| == f.width && GetField(f, a) == GetField(f, b)
    ensures a == b
  {
    hide Digits, Number;
    NumberBound(a, 256);
    NumberBound(b, 256);
    DigitsOfNumber(a, 256);
    DigitsOfNumber(b, 256);
  }

  // ----- records ------------------------------------------------------------------------------

  function Size(fs: seq<Field>): nat {
    if fs == [] then 0 else fs[0].width + Size(fs[1..])
  }

  function Put(fs: seq<Field>, vs: seq<int>): (bs: seq<Byte>)
    requires |vs| == |fs|
    ensures |bs| == Size(fs)
  {
    if fs == [] then [] else PutField(fs[0], vs[0]) + Put(fs[1..], vs[1..])
  }

  function Get(fs: seq<Field>, bs: seq<Byte>): (vs: seq<int>)
    requires |bs| == Size(fs)
    ensures |vs| == |fs|
  {
    if fs == [] then [] else [GetField(fs[0], bs[..fs[0].width])] + Get(fs[1..], bs[fs[0].width..])
  }

  ghost predicate AllHold(fs: seq<Field>, vs: seq<int>) {
    |vs| == |fs| && forall i :: 0 <= i < |fs| ==> Holds(fs[i], vs[i])
  }

  /** A record reads back as it was written. */
  lemma {:induction false} RecordRoundTrip(fs: seq<Field>, vs: seq<int>)
    requires AllHold(fs, vs)
    ensures Get(fs, Put(fs, vs)) == vs
  {
    hide GetField, PutField, Holds;
    if fs != [] {
      FieldRoundTrip(fs[0], vs[0]);
      RecordRoundTrip(fs[1..], vs[1..]);
      var bs := Put(fs, vs);
      assert bs[..fs[0].width] == PutField(fs[0], vs[0]) && bs[fs[0].width..] == Put(fs[1..], vs[1..]);
    }
  }

  // ----- arrays of records --------------------------------------------------------------------

  function Span(size: nat, n: nat): nat { size * n }

  lemma SpanStep(size: nat, n: nat)
    ensures Span(size, n + 1) == Span(size, n) + size && Span(size, 0) == 0
  {
  }

  lemma SpanGrows(size: nat, m: nat, n: nat)
    requires m <= n
    ensures Span(size, m) <= Span(size, n)
  {
    MulOrder(m, n, size);
  }

  function PutAll(fs: seq<Field>, rows: seq<seq<int>>): (bs: seq<Byte>)
    requires forall i :: 0 <= i < |rows| ==> |rows[i]| == |fs|
    ensures |bs| == Span(Size(fs), |rows|)
  {
    if rows == [] then [] else
      SpanStep(Size(fs), |rows| - 1);
      PutAll(fs, rows[..|rows| - 1]) + Put(fs, rows[|rows| - 1])
  }

  function RowAt(fs: seq<Field>, bs: seq<Byte>, i: nat): (vs: seq<int>)
    requires Span(Size(fs), i + 1) <= |bs|
    ensures |vs| == |fs|
  {
    SpanStep(Size(fs), i);
    Get(fs, bs[Span(Size(fs), i)..Span(Size(fs), i + 1)])
  }

  lemma {:induction false} PutAllSlice(fs: seq<Field>, rows: seq<seq<int>>, i: nat)
    requires i < |rows| && forall k :: 0 <= k < |rows| ==> |rows[k]| == |fs|
    ensures Span(Size(fs), i) <= Span(Size(fs), i + 1) <= |PutAll(fs, rows)|
    ensures PutAll(fs, rows)[Span(Size(fs), i)..Span(Size(fs), i + 1)] == Put(fs, rows[i])
  {
    hide Put, Span, Size;
    var n := |rows| - 1;
    SpanStep(Size(fs), i);
    SpanStep(Size(fs), n);
    SpanGrows(Size(fs), i + 1, |rows|);
    if i < n {
      SpanGrows(Size(fs), i + 1, n);
      PutAllSlice(fs, rows[..n], i);
    }
  }

  ghost predicate RowsHold(fs: seq<Field>, rows: seq<seq<int>>) {
    && (forall k :: 0 <= k < |rows| ==> |rows[k]| == |fs|)
    && (forall k :: 0 <= k < |rows| ==> AllHold(fs, rows[k]))
  }

  /** Every record of a table reads back in its place. */
  lemma TableRoundTrip(fs: seq<Field>, rows: seq<seq<int>>, i: nat)
    requires i < |rows| && RowsHold(fs, rows)
    ensures Span(Size(fs), i + 1) <= Span(Size(fs), |rows|) && RowAt(fs, PutAll(fs, rows), i) == rows[i]
  {
    hide Put, Get, Span;
    SpanGrows(Size(fs), i + 1, |rows|);
    PutAllSlice(fs, rows, i);
    RecordRoundTrip(fs, rows[i]);
  }
}
