/** The stored formats said byte by byte: where each number lies and how it is written. */
module FormatLaws {
  import opened Types
  import opened Sessions
  import opened Words
  import opened Varint
  import opened Codec
  import opened Registry
  import opened Layout
  import opened DayFile
  import opened DayFileProperties
  import opened DayFileEngine
  import R = ReferenceReader

  // ----- numbers ------------------------------------------------------------------------------

  /** Zigzag keeps small numbers small, negatives odd and the rest even: 0, -1, 1, -2, 2 become 0, 1, 2, 3, 4. */
  lemma ZigzagLaw(v: I64)
    ensures Zigzag(v) % 2 == (if v < 0 then 1 else 0) && Zigzag(v) + Zigzag(v) % 2 == 2 * Abs(v)
  {
  }

  function LowSeven(bs: seq<Byte>): (ds: seq<int>)
    ensures |ds| == |bs|
  {
    seq(|bs|, i requires 0 <= i < |bs| => bs[i] % 128)
  }

  /** A varint is the number's base-128 digits, the lowest first, each byte but the last marked as
      continued, and none wasted. */
  lemma {:induction false} VarintLaw(v: U64)
    ensures var bs := PutVarint(v);
            && Number(LowSeven(bs), 128) == v
            && (forall i :: 0 <= i < |bs| ==> (bs[i] >= 128 <==> i < |bs| - 1))
            && (|bs| > 1 ==> bs[|bs| - 1] != 0)
    decreases v
  {
    var bs := PutVarint(v);
    if v < 128 {
      assert LowSeven(bs) == [v] && [v][1..] == [];
    } else {
      VarintLaw(v / 128);
      assert bs[1..] == PutVarint(v / 128);
      assert LowSeven(bs)[1..] == LowSeven(bs[1..]);
      forall i | 0 <= i < |bs| ensures bs[i] >= 128 <==> i < |bs| - 1 {
        if i > 0 { assert bs[i] == bs[1..][i - 1]; }
      }
      assert bs[|bs| - 1] == bs[1..][|bs| - 2];
    }
  }

  /** And so a number is read: digits up to the first unmarked byte, which must be one of the first ten.
      The readers differ only in whether they keep what does not fit sixty-four bits. */
  lemma VarintReadLaw(bs: seq<Byte>, i: nat)
    requires i < |bs| && bs[i] < 128 && forall j :: 0 <= j < i ==> bs[j] >= 128
    ensures var v := Number(LowSeven(bs[..i + 1]), 128);
            && R.ReadInt(bs) == (if i < 10 then Got(v, bs[i + 1..]) else Malformed)
            && GetVarint(bs) == (if i < 10 then Got(ToU64(v), bs[i + 1..]) else Malformed)
  {
    hide Number, GetFrom, ToU64, Shifted;
    ReadRun(bs, 0, 0, i, 0);
    ShiftedNone(Number(LowSeven(bs[..i + 1]), 128));
    R.ReadAgrees(bs);
  }

  lemma ShiftedNone(v: int)
    ensures Shifted(v, 0) == v
  {
  }

  lemma {:induction false} ReadRun(bs: seq<Byte>, shift: nat, acc: nat, i: nat, k: nat)
    requires i < |bs| && bs[i] < 128 && (forall j :: 0 <= j < i ==> bs[j] >= 128) && shift == 7 * k && k < 10
    ensures var v := Number(LowSeven(bs[..i + 1]), 128);
            && v >= 0 && Shifted(v, shift) >= 0
            && R.ReadFrom(bs, shift, acc) == if k + i < 10 then Got(acc + Shifted(v, shift), bs[i + 1..]) else Malformed
    decreases i
  {
    hide Number, Shifted;
    RunDigits(bs, i, shift);
    if i > 0 {
      if k < 9 {
        R.LowBits(bs[0], shift);
        assert bs[1..][i - 1] == bs[i] && bs[1..][i..] == bs[i + 1..];
        forall j | 0 <= j < i - 1 ensures bs[1..][j] >= 128 { assert bs[1..][j] == bs[j + 1]; }
        ReadRun(bs[1..], shift + 7, acc + Shifted(bs[0] % 128, shift), i - 1, k + 1);
      }
    }
  }

  /** The digits of a run: the first, and what the rest are worth seven bits higher. */
  lemma RunDigits(bs: seq<Byte>, i: nat, shift: nat)
    requires i < |bs|
    ensures var ds := LowSeven(bs[..i + 1]);
            && Number(ds, 128) >= 0 && Shifted(Number(ds, 128), shift) >= 0
            && (i == 0 ==> Number(ds, 128) == bs[0] % 128)
            && (i > 0 ==> Shifted(Number(ds, 128), shift)
                          == Shifted(bs[0] % 128, shift) + Shifted(Number(LowSeven(bs[1..][..i]), 128), shift + 7))
  {
    var ds := LowSeven(bs[..i + 1]);
    NumberIsNatural(ds);
    MulOrder(0, Number(ds, 128), Pow2(shift));
    assert ds[0] == bs[0] % 128;
    if i == 0 {
      assert ds[1..] == [];
    } else {
      assert ds[1..] == LowSeven(bs[1..][..i]);
      SevenUp(bs[0] % 128, Number(ds[1..], 128), shift);
    }
  }

  lemma SevenUp(low: int, high: int, shift: nat)
    ensures Shifted(low + 128 * high, shift) == Shifted(low, shift) + Shifted(high, shift + 7)
  {
    Pow2Words();
    Pow2Add(shift, 7);
    var p := Pow2(shift);
    assert high * (p * 128) == 128 * high * p;
    assert (low + 128 * high) * p == low * p + 128 * high * p;
  }

  lemma {:induction false} NumberIsNatural(ds: seq<int>)
    requires forall i :: 0 <= i < |ds| ==> 0 <= ds[i] < 128
    ensures Number(ds, 128) >= 0
  {
    if ds != [] { NumberIsNatural(ds[1..]); }
  }

  /** Bytes that never stop are no number. */
  lemma {:induction false} EndlessRefused(bs: seq<Byte>, shift: nat, acc: U64)
    requires forall j :: 0 <= j < |bs| ==> bs[j] >= 128
    ensures GetFrom(bs, shift, acc).Malformed?
  {
    hide Shifted, ToU64;
    if bs != [] && shift + 7 <= MAX_SHIFT {
      EndlessRefused(bs[1..], shift + 7, ToU64(acc + Shifted(bs[0] % 128, shift)));
    }
  }

  /** A field is written low byte first, in as many bytes as it is wide. */
  lemma FieldLaw(f: Field, v: int)
    requires Holds(f, v)
    ensures |PutField(f, v)| == f.width && Number(PutField(f, v), 256) == if v < 0 then v + Range(f) else v
  {
    hide Number, Digits;
    NumberOfDigits(Register(f, v), 256, f.width);
    DivModUnique(v, Range(f), if v < 0 then -1 else 0, if v < 0 then v + Range(f) else v);
  }

  // ----- records ------------------------------------------------------------------------------

  lemma OffsetNext(fs: seq<Field>, k: nat)
    requires k < |fs|
    ensures Size(fs[..k + 1]) == Size(fs[..k]) + fs[k].width
  {
    assert fs[..k + 1] == fs[..k] + [fs[k]];
    SizeConcat(fs[..k], [fs[k]]);
    SizeOfOne(fs[k]);
  }

  /** Field `k` of a record lies after the fields before it. */
  lemma {:induction false} FieldPlaced(fs: seq<Field>, vs: seq<int>, k: nat)
    requires |vs| == |fs| && k < |fs|
    ensures var at := Size(fs[..k]); at + fs[k].width <= Size(fs) && Layout.Put(fs, vs)[at..at + fs[k].width] == PutField(fs[k], vs[k])
    decreases k
  {
    hide PutField;
    var head, rest := PutField(fs[0], vs[0]), Layout.Put(fs[1..], vs[1..]);
    assert Layout.Put(fs, vs) == head + rest;
    if k == 0 {
      assert fs[..0] == [];
    } else {
      FieldPlaced(fs[1..], vs[1..], k - 1);
      assert fs[..k][0] == fs[0] && fs[..k][1..] == fs[1..][..k - 1];
      var at := Size(fs[1..][..k - 1]);
      assert (head + rest)[|head| + at..|head| + at + fs[k].width] == rest[at..at + fs[k].width];
    }
  }

  /** `v` lies at byte `at`, written as an `f`. */
  predicate Lies(bs: seq<Byte>, at: nat, f: Field, v: int) {
    at + f.width <= |bs| && bs[at..at + f.width] == PutField(f, v)
  }

  lemma Placed(fs: seq<Field>, vs: seq<int>, k: nat, at: nat)
    requires |vs| == |fs| && k < |fs| && Size(fs[..k]) == at
    ensures Lies(Layout.Put(fs, vs), at, fs[k], vs[k]) && Size(fs[..k + 1]) == at + fs[k].width
  {
    hide PutField, Layout.Put, Size;
    FieldPlaced(fs, vs, k);
    OffsetNext(fs, k);
  }

  lemma NoFields(fs: seq<Field>)
    ensures Size(fs[..0]) == 0
  {
  }

  /** One instrument's record: where its name lies, what kind it is, and its terms. */
  lemma TableLayout(series: seq<Series>, j: nat)
    requires j < |series|
    ensures var c, bs := series[j].contract, Layout.Put(TABLE, TableRow(series, j));
            && |bs| == 28 && c.name in Strings(series[..j + 1]).1 && Lies(bs, 0, U32, Strings(series[..j + 1]).1[c.name])
            && Lies(bs, 4, U32, |c.name|) && Lies(bs, 8, U8, c.kind) && Lies(bs, 9, U8, c.right) && Lies(bs, 10, U16, 0)
            && Lies(bs, 12, I32, c.expiry) && Lies(bs, 16, I32, c.strike) && Lies(bs, 20, I32, c.lot) && Lies(bs, 24, I32, c.tick)
  {
    hide PutField, Layout.Put, Size, Strings, Lies;
    var vs := TableRow(series, j);
    RecordSizes();
    NoFields(TABLE);
    Placed(TABLE, vs, 0, 0);
    Placed(TABLE, vs, 1, 4);
    Placed(TABLE, vs, 2, 8);
    Placed(TABLE, vs, 3, 9);
    Placed(TABLE, vs, 4, 10);
    Placed(TABLE, vs, 5, 12);
    Placed(TABLE, vs, 6, 16);
    Placed(TABLE, vs, 7, 20);
    Placed(TABLE, vs, 8, 24);
  }

  lemma DirectoryFieldsLie(vs: seq<int>)
    requires |vs| == |DIRECTORY|
    ensures var bs := Layout.Put(DIRECTORY, vs);
            && |bs| == 40 && Lies(bs, 0, I32, vs[0]) && Lies(bs, 4, U32, vs[1]) && Lies(bs, 8, I64F, vs[2]) && Lies(bs, 16, U32, vs[3])
            && Lies(bs, 20, U32, vs[4]) && Lies(bs, 24, I64F, vs[5]) && Lies(bs, 32, I64F, vs[6])
  {
    hide PutField, Layout.Put, Size, Lies;
    RecordSizes();
    NoFields(DIRECTORY);
    Placed(DIRECTORY, vs, 0, 0);
    Placed(DIRECTORY, vs, 1, 4);
    Placed(DIRECTORY, vs, 2, 8);
    Placed(DIRECTORY, vs, 3, 16);
    Placed(DIRECTORY, vs, 4, 20);
    Placed(DIRECTORY, vs, 5, 24);
    Placed(DIRECTORY, vs, 6, 32);
  }

  /** What the numbers of a directory record are. */
  ghost predicate Describes(vs: seq<int>, series: seq<Series>, j: nat)
    requires SeriesFit(series)
  {
    && |vs| == |DIRECTORY| && j < |series| && |series[j].rows| > 0
    && vs[0] == j && vs[1] == |series[j].rows| && vs[2] == 112 + |Payload(series[..j])|
    && vs[3] == |Blob(series[j].rows)| && vs[4] == CrcOf(Blob(series[j].rows))
    && vs[5] == series[j].rows[0].ts && vs[6] == series[j].rows[|series[j].rows| - 1].ts
  }

  /** One directory record: which instrument, how many rows, where its bytes lie, how many they are, their
      checksum, and the first and last time in them. */
  lemma DirectoryLayout(series: seq<Series>, j: nat)
    requires j < |series| && SeriesFit(series)
    ensures var vs := DirectoryRow(series, j);
            var bs := Layout.Put(DIRECTORY, vs);
            && Describes(vs, series, j)
            && |bs| == 40 && Lies(bs, 0, I32, vs[0]) && Lies(bs, 4, U32, vs[1]) && Lies(bs, 8, I64F, vs[2]) && Lies(bs, 16, U32, vs[3])
            && Lies(bs, 20, U32, vs[4]) && Lies(bs, 24, I64F, vs[5]) && Lies(bs, 32, I64F, vs[6])
  {
    hide PutField, Layout.Put, Size, Lies, Payload, Blob, CrcOf;
    DirectoryFieldsLie(DirectoryRow(series, j));
  }

  /** An instrument's bytes are its eight columns, in this order. */
  lemma BlobLayout(rows: seq<Quote>)
    requires RowsFit(rows)
    ensures Blob(rows) == Encode(seq(|rows|, i requires 0 <= i < |rows| => rows[i].ts))
                        + Encode(seq(|rows|, i requires 0 <= i < |rows| => rows[i].last))
                        + Encode(seq(|rows|, i requires 0 <= i < |rows| => rows[i].bid))
                        + Encode(seq(|rows|, i requires 0 <= i < |rows| => rows[i].ask))
                        + Encode(seq(|rows|, i requires 0 <= i < |rows| => rows[i].bidQty))
                        + Encode(seq(|rows|, i requires 0 <= i < |rows| => rows[i].askQty))
                        + Encode(seq(|rows|, i requires 0 <= i < |rows| => rows[i].lastQty))
                        + Encode(seq(|rows|, i requires 0 <= i < |rows| => rows[i].openInterest))
  {
    hide Encode;
    assert Column(rows, 0) == seq(|rows|, i requires 0 <= i < |rows| => rows[i].ts);
    assert Column(rows, 1) == seq(|rows|, i requires 0 <= i < |rows| => rows[i].last);
    assert Column(rows, 2) == seq(|rows|, i requires 0 <= i < |rows| => rows[i].bid);
    assert Column(rows, 3) == seq(|rows|, i requires 0 <= i < |rows| => rows[i].ask);
    assert Column(rows, 4) == seq(|rows|, i requires 0 <= i < |rows| => rows[i].bidQty);
    assert Column(rows, 5) == seq(|rows|, i requires 0 <= i < |rows| => rows[i].askQty);
    assert Column(rows, 6) == seq(|rows|, i requires 0 <= i < |rows| => rows[i].lastQty);
    assert Column(rows, 7) == seq(|rows|, i requires 0 <= i < |rows| => rows[i].openInterest);
    BlobInTurn(rows);
  }

  lemma BlobInTurn(rows: seq<Quote>)
    requires RowsFit(rows)
    ensures Blob(rows) == Encode(Column(rows, 0)) + Encode(Column(rows, 1)) + Encode(Column(rows, 2)) + Encode(Column(rows, 3))
                        + Encode(Column(rows, 4)) + Encode(Column(rows, 5)) + Encode(Column(rows, 6)) + Encode(Column(rows, 7))
  {
    hide Encode, Column;
    assert BlobUpto(rows, 1) == Encode(Column(rows, 0));
    assert BlobUpto(rows, 3) == BlobUpto(rows, 2) + Encode(Column(rows, 2));
    assert BlobUpto(rows, 5) == BlobUpto(rows, 4) + Encode(Column(rows, 4));
    assert BlobUpto(rows, 7) == BlobUpto(rows, 6) + Encode(Column(rows, 6));
  }

  // ----- the file -----------------------------------------------------------------------------

  lemma FrontFieldsLie(vs: seq<int>)
    requires |vs| == |HEADER|
    ensures var bs := Layout.Put(HEADER, vs);
            && Lies(bs, 0, U32, vs[0]) && Lies(bs, 4, U32, vs[1]) && Lies(bs, 8, I32, vs[2]) && Lies(bs, 12, I32, vs[3])
            && Lies(bs, 16, I64F, vs[4]) && Lies(bs, 24, I64F, vs[5]) && Lies(bs, 32, U32, vs[6]) && Lies(bs, 36, U32, vs[7])
    ensures Size(HEADER[..8]) == 40
  {
    hide PutField, Layout.Put, Size, Lies;
    NoFields(HEADER);
    Placed(HEADER, vs, 0, 0);
    Placed(HEADER, vs, 1, 4);
    Placed(HEADER, vs, 2, 8);
    Placed(HEADER, vs, 3, 12);
    Placed(HEADER, vs, 4, 16);
    Placed(HEADER, vs, 5, 24);
    Placed(HEADER, vs, 6, 32);
    Placed(HEADER, vs, 7, 36);
  }

  lemma BackFieldsLie(vs: seq<int>)
    requires |vs| == |HEADER| && Size(HEADER[..8]) == 40
    ensures var bs := Layout.Put(HEADER, vs);
            && Lies(bs, 40, I64F, vs[8]) && Lies(bs, 48, U32, vs[9]) && Lies(bs, 52, U32, vs[10])
            && Lies(bs, 56, I64F, vs[11]) && Lies(bs, 64, U32, vs[12]) && Lies(bs, 68, U32, vs[13])
            && Lies(bs, 72, I64F, vs[14]) && Lies(bs, 80, U32, vs[15]) && Lies(bs, 84, U32, vs[16]) && Lies(bs, 88, I64F, vs[17])
  {
    hide PutField, Layout.Put, Size, Lies;
    Placed(HEADER, vs, 8, 40);
    Placed(HEADER, vs, 9, 48);
    Placed(HEADER, vs, 10, 52);
    Placed(HEADER, vs, 11, 56);
    Placed(HEADER, vs, 12, 64);
    Placed(HEADER, vs, 13, 68);
    Placed(HEADER, vs, 14, 72);
    Placed(HEADER, vs, 15, 80);
    Placed(HEADER, vs, 16, 84);
    Placed(HEADER, vs, 17, 88);
  }

  lemma LiesWithin(before: seq<Byte>, bs: seq<Byte>, after: seq<Byte>, at: nat, f: Field, v: int)
    requires Lies(bs, at, f, v)
    ensures Lies(before + bs + after, |before| + at, f, v)
  {
    hide PutField;
    assert (before + bs + after)[|before| + at..|before| + at + f.width] == bs[at..at + f.width];
  }

  /** Where a written file keeps what its header records: the counts, the place, size and checksum of each
      region, and the regions themselves. */
  lemma ImageLayout(day: Day)
    requires SeriesFit(day.series)
    ensures var bs, r := Image(day), RegionsOf(day);
            && bs[..8] == [0x56, 0x46, 0x44, 0x41, 0x59, 0x30, 0x30, 0x33]
            && Lies(bs, 8, U32, 3) && Lies(bs, 12, U32, 0) && Lies(bs, 16, I32, day.date) && Lies(bs, 20, I32, |day.series|)
            && Lies(bs, 24, I64F, TotalRows(day.series))
            && Lies(bs, 32, I64F, 112 + |r.payload|) && Lies(bs, 40, U32, |r.table|) && Lies(bs, 44, U32, CrcOf(r.table))
    ensures var bs, r := Image(day), RegionsOf(day);
            && Lies(bs, 104, U32, CrcOf(bs[..104])) && bs[112..] == r.payload + r.table + r.strings + r.timeline + r.directory
  {
    hide PutField, Layout.Put, Size, Lies, CrcOf, RegionsOf, TotalRows;
    var r := RegionsOf(day);
    var vs := HeaderValues(day, r);
    var record, tail := Layout.Put(HEADER, vs), PutField(U32, CrcOf(HeaderFront(day, r))) + [0, 0, 0, 0] + r.All();
    FrontFieldsLie(vs);
    ImageParts(day, r, vs, tail);
    LiesWithin(MAGIC, record, tail, 0, U32, vs[0]);
    LiesWithin(MAGIC, record, tail, 4, U32, vs[1]);
    LiesWithin(MAGIC, record, tail, 8, I32, vs[2]);
    LiesWithin(MAGIC, record, tail, 12, I32, vs[3]);
    LiesWithin(MAGIC, record, tail, 16, I64F, vs[4]);
    LiesWithin(MAGIC, record, tail, 24, I64F, vs[5]);
    LiesWithin(MAGIC, record, tail, 32, U32, vs[6]);
    LiesWithin(MAGIC, record, tail, 36, U32, vs[7]);
  }

  /** The rest of the header: the regions after the instrument table, and the length of the file. */
  lemma RegionLayout(day: Day)
    requires SeriesFit(day.series)
    ensures var bs, r := Image(day), RegionsOf(day);
            && Lies(bs, 48, I64F, 112 + |r.payload| + |r.table|) && Lies(bs, 56, U32, |r.strings|) && Lies(bs, 60, U32, CrcOf(r.strings))
            && Lies(bs, 64, I64F, 112 + |r.payload| + |r.table| + |r.strings|)
            && Lies(bs, 72, U32, |day.timeline|) && Lies(bs, 76, U32, CrcOf(r.timeline))
            && Lies(bs, 80, I64F, 112 + |r.payload| + |r.table| + |r.strings| + |r.timeline|)
            && Lies(bs, 88, U32, |r.directory|) && Lies(bs, 92, U32, CrcOf(r.directory)) && Lies(bs, 96, I64F, |bs|)
  {
    hide PutField, Layout.Put, Size, Lies, CrcOf, RegionsOf, TotalRows;
    var r := RegionsOf(day);
    var vs := HeaderValues(day, r);
    var record, tail := Layout.Put(HEADER, vs), PutField(U32, CrcOf(HeaderFront(day, r))) + [0, 0, 0, 0] + r.All();
    FrontFieldsLie(vs);
    BackFieldsLie(vs);
    ImageParts(day, r, vs, tail);
    LiesWithin(MAGIC, record, tail, 40, I64F, vs[8]);
    LiesWithin(MAGIC, record, tail, 48, U32, vs[9]);
    LiesWithin(MAGIC, record, tail, 52, U32, vs[10]);
    LiesWithin(MAGIC, record, tail, 56, I64F, vs[11]);
    LiesWithin(MAGIC, record, tail, 64, U32, vs[12]);
    LiesWithin(MAGIC, record, tail, 68, U32, vs[13]);
    LiesWithin(MAGIC, record, tail, 72, I64F, vs[14]);
    LiesWithin(MAGIC, record, tail, 80, U32, vs[15]);
    LiesWithin(MAGIC, record, tail, 84, U32, vs[16]);
    LiesWithin(MAGIC, record, tail, 88, I64F, vs[17]);
  }

  lemma ImageParts(day: Day, r: Regions, vs: seq<int>, tail: seq<Byte>)
    requires SeriesFit(day.series) && r == RegionsOf(day) && vs == HeaderValues(day, r)
    requires tail == PutField(U32, CrcOf(HeaderFront(day, r))) + [0, 0, 0, 0] + r.All()
    ensures var bs := Image(day);
            && bs == MAGIC + Layout.Put(HEADER, vs) + tail && |bs| == r.End() && bs[..8] == MAGIC
            && bs[..104] == HeaderFront(day, r) && Lies(bs, 104, U32, CrcOf(bs[..104])) && bs[112..] == r.All()
  {
    hide Layout.Put, Size, CrcOf, RegionsOf, TotalRows, HeaderValues;
    var front := HeaderFront(day, r);
    var bs := Image(day);
    assert bs == front + tail;
    assert bs[..104] == front;
    assert bs[104..108] == PutField(U32, CrcOf(front));
  }

  /** The codes of kinds and rights in an instrument record. */
  lemma CodeLaw(s: InstrumentSpec, names: seq<Name>)
    requires 0 <= s.underlying < |names|
    ensures var c := ContractOf(s, names);
            && c.name == names[s.underlying] && c.expiry == s.expiry && c.strike == s.strike && c.lot == s.lotSize && c.tick == s.tickSize
            && (c.kind == 0 <==> s.kind.Spot?) && (c.kind == 1 <==> s.kind.Future?) && (c.kind == 2 <==> s.kind.OptionKind?)
            && (c.right == 0 <==> s.right.Call?) && (c.right == 1 <==> s.right.Put?)
  {
  }

  // ----- what an opened file is ---------------------------------------------------------------

  lemma {:induction false} FieldGot(fs: seq<Field>, bs: seq<Byte>, k: nat)
    requires |bs| == Size(fs) && k < |fs|
    ensures var at := Size(fs[..k]); at + fs[k].width <= |bs| && Get(fs, bs)[k] == GetField(fs[k], bs[at..at + fs[k].width])
  {
    hide GetField;
    if k > 0 {
      FieldGot(fs[1..], bs[fs[0].width..], k - 1);
      assert fs[..k][1..] == fs[1..][..k - 1];
      var at, w := Size(fs[1..][..k - 1]), fs[0].width;
      assert bs[w..][at..at + fs[k].width] == bs[w + at..w + at + fs[k].width];
    } else {
      assert bs[0..fs[0].width] == bs[..fs[0].width];
    }
  }

  /** Field `k` of a record, which starts at `at`. */
  lemma FieldFound(fs: seq<Field>, bs: seq<Byte>, k: nat, at: nat)
    requires |bs| == Size(fs) && k < |fs| && Size(fs[..k]) == at
    ensures at + fs[k].width <= |bs| && Get(fs, bs)[k] == GetField(fs[k], bs[at..at + fs[k].width])
    ensures Size(fs[..k + 1]) == at + fs[k].width
  {
    hide GetField, Get, Size;
    FieldGot(fs, bs, k);
    OffsetNext(fs, k);
  }

  /** The value a file keeps at a place. */
  function ValueIn(bs: seq<Byte>, at: nat, f: Field): int
    requires at + f.width <= |bs|
  {
    GetField(f, bs[at..at + f.width])
  }

  lemma Window(bs: seq<Byte>, lo: nat, hi: nat, a: nat, b: nat)
    requires lo <= hi <= |bs| && a <= b <= hi - lo
    ensures bs[lo..hi][a..b] == bs[lo + a..lo + b]
  {
    var x, y := bs[lo..hi][a..b], bs[lo + a..lo + b];
    forall k | 0 <= k < b - a ensures x[k] == y[k] {
      assert x[k] == bs[lo..hi][a + k] == bs[lo + a + k] == y[k];
    }
    assert x == y;
  }

  lemma HeaderHere(bs: seq<Byte>)
    requires |bs| >= 112
    ensures |bs[8..104]| == Size(HEADER) && HeaderIn(bs) == HeaderOf(Get(HEADER, bs[8..104]))
  {
    hide Get, Size;
    RecordSizes();
  }

  lemma HeaderValuesIn(bs: seq<Byte>)
    requires |bs| >= 112
    ensures var h := HeaderIn(bs);
            && h.version == ValueIn(bs, 8, U32) && h.date == ValueIn(bs, 16, I32) && h.instruments == ValueIn(bs, 20, I32)
            && h.total == ValueIn(bs, 24, I64F) && h.tableAt == ValueIn(bs, 32, I64F)
            && h.tableBytes == ValueIn(bs, 40, U32) && h.tableCrc == ValueIn(bs, 44, U32)
    ensures HeaderIn(bs).fileBytes == ValueIn(bs, 96, I64F)
  {
    hide GetField, Get, Size;
    RecordSizes();
    var r := bs[8..104];
    HeaderStartIn(r);
    HeaderTableIn(r);
    HeaderEndIn(r);
    Window(bs, 8, 104, 0, 4);
    Window(bs, 8, 104, 8, 12);
    Window(bs, 8, 104, 12, 16);
    Window(bs, 8, 104, 16, 24);
    Window(bs, 8, 104, 24, 32);
    Window(bs, 8, 104, 32, 36);
    Window(bs, 8, 104, 36, 40);
    Window(bs, 8, 104, 88, 96);
    HeaderHere(bs);
  }

  lemma HeaderStartIn(r: seq<Byte>)
    requires |r| == Size(HEADER) == 96
    ensures var vs := Get(HEADER, r);
            vs[0] == GetField(U32, r[0..4]) && vs[2] == GetField(I32, r[8..12]) && vs[3] == GetField(I32, r[12..16])
    ensures Size(HEADER[..4]) == 16
  {
    hide GetField, Get, Size;
    NoFields(HEADER);
    FieldFound(HEADER, r, 0, 0);
    FieldFound(HEADER, r, 1, 4);
    FieldFound(HEADER, r, 2, 8);
    FieldFound(HEADER, r, 3, 12);
  }

  lemma HeaderTableIn(r: seq<Byte>)
    requires |r| == Size(HEADER) == 96
    ensures var vs := Get(HEADER, r);
            && vs[4] == GetField(I64F, r[16..24]) && vs[5] == GetField(I64F, r[24..32])
            && vs[6] == GetField(U32, r[32..36]) && vs[7] == GetField(U32, r[36..40])
    ensures Size(HEADER[..8]) == 40
  {
    hide GetField, Get, Size;
    HeaderStartIn(r);
    FieldFound(HEADER, r, 4, 16);
    FieldFound(HEADER, r, 5, 24);
    FieldFound(HEADER, r, 6, 32);
    FieldFound(HEADER, r, 7, 36);
  }

  lemma HeaderMiddle(r: seq<Byte>)
    requires |r| == Size(HEADER) == 96
    ensures Size(HEADER[..13]) == 68
  {
    hide GetField, Get, Size;
    HeaderTableIn(r);
    OffsetNext(HEADER, 8);
    OffsetNext(HEADER, 9);
    OffsetNext(HEADER, 10);
    OffsetNext(HEADER, 11);
    OffsetNext(HEADER, 12);
  }

  lemma HeaderEndIn(r: seq<Byte>)
    requires |r| == Size(HEADER) == 96
    ensures Get(HEADER, r)[17] == GetField(I64F, r[88..96])
  {
    hide GetField, Get, Size;
    HeaderMiddle(r);
    OffsetNext(HEADER, 13);
    OffsetNext(HEADER, 14);
    OffsetNext(HEADER, 15);
    OffsetNext(HEADER, 16);
    FieldFound(HEADER, r, 17, 88);
  }

  /** A file that opens names the format and its version, matches its header checksum and its length, and
      its instrument table lies inside it and matches its own. */
  lemma OpenedHeader(bs: seq<Byte>, reg: Reg)
    requires Open(bs, reg).Some?
    ensures |bs| >= 112 && bs[..8] == [0x56, 0x46, 0x44, 0x41, 0x59, 0x30, 0x30, 0x33] && ValueIn(bs, 8, U32) == 3
    ensures ValueIn(bs, 104, U32) == CrcOf(bs[..104]) && ValueIn(bs, 96, I64F) == |bs|
    ensures var at, n := ValueIn(bs, 32, I64F), ValueIn(bs, 40, U32); 0 <= at <= at + n <= |bs| && CrcOf(bs[at..at + n]) == ValueIn(bs, 44, U32)
  {
    hide GetField, Get, CrcOf, OpenRegions;
    HeaderValuesIn(bs);
  }

  /** Rows the listed instruments have between them. */
  function RowsOfAll(ids: seq<nat>, entries: map<nat, Entry>): int
    requires forall i :: 0 <= i < |ids| ==> ids[i] in entries
  {
    if ids == [] then 0 else RowsOfAll(ids[..|ids| - 1], entries) + entries[ids[|ids| - 1]].rowCount
  }

  /** What opening has gathered from the directory: each instrument once, its bytes between the header and
      the instrument table, its times in order, its rows counted. */
  ghost predicate Gathered(ids: seq<nat>, entries: map<nat, Entry>, rows: int, tableAt: int) {
    Named(ids, entries) && Inside(entries, tableAt) && rows == RowsOfAll(ids, entries)
  }

  /** The instruments listed are distinct, and they are the ones there is an entry for. */
  ghost predicate Named(ids: seq<nat>, entries: map<nat, Entry>) {
    && (forall i, j :: 0 <= i < j < |ids| ==> ids[i] != ids[j])
    && (forall i :: 0 <= i < |ids| ==> ids[i] in entries)
    && (forall id :: id in entries ==> id in ids)
  }

  ghost predicate Inside(entries: map<nat, Entry>, tableAt: int) {
    forall id :: id in entries ==> Fits(entries[id], tableAt)
  }

  predicate Fits(e: Entry, tableAt: int) {
    e.first <= e.last && 112 <= e.blobOffset && e.blobOffset + e.blobBytes <= tableAt
  }

  lemma {:induction false} RowsUnmoved(ids: seq<nat>, entries: map<nat, Entry>, id: nat, e: Entry)
    requires id !in ids && forall i :: 0 <= i < |ids| ==> ids[i] in entries
    ensures RowsOfAll(ids, entries[id := e]) == RowsOfAll(ids, entries)
  {
    if ids != [] {
      RowsUnmoved(ids[..|ids| - 1], entries, id, e);
    }
  }

  lemma NamedMore(ids: seq<nat>, entries: map<nat, Entry>, id: nat, e: Entry)
    requires Named(ids, entries) && id !in entries
    ensures id !in ids && Named(ids + [id], entries[id := e])
  {
    var ids', entries' := ids + [id], entries[id := e];
    forall i | 0 <= i < |ids'| ensures ids'[i] in entries' {
      if i < |ids| { assert ids'[i] == ids[i]; }
    }
    forall x | x in entries' ensures x in ids' {
      if x == id { assert ids'[|ids|] == id; }
    }
  }

  lemma RowsStep(ids: seq<nat>, entries: map<nat, Entry>, id: nat)
    requires (forall i :: 0 <= i < |ids| ==> ids[i] in entries) && id in entries
    ensures forall i :: 0 <= i < |ids + [id]| ==> (ids + [id])[i] in entries
    ensures RowsOfAll(ids + [id], entries) == RowsOfAll(ids, entries) + entries[id].rowCount
  {
    assert (ids + [id])[..|ids|] == ids;
  }

  lemma RowsMore(ids: seq<nat>, entries: map<nat, Entry>, id: nat, e: Entry)
    requires id !in ids && forall i :: 0 <= i < |ids| ==> ids[i] in entries
    ensures forall i :: 0 <= i < |ids + [id]| ==> (ids + [id])[i] in entries[id := e]
    ensures RowsOfAll(ids + [id], entries[id := e]) == RowsOfAll(ids, entries) + e.rowCount
  {
    hide RowsOfAll;
    RowsUnmoved(ids, entries, id, e);
    RowsStep(ids, entries[id := e], id);
  }

  lemma GatheredMore(ids: seq<nat>, entries: map<nat, Entry>, rows: int, tableAt: int, id: nat, e: Entry)
    requires Gathered(ids, entries, rows, tableAt) && id !in entries && Fits(e, tableAt)
    ensures Gathered(ids + [id], entries[id := e], rows + e.rowCount, tableAt)
  {
    hide RowsOfAll, Fits;
    NamedMore(ids, entries, id, e);
    RowsMore(ids, entries, id, e);
  }

  lemma {:induction false} DirectoryGathered(reg: Reg, directory: seq<Byte>, table: seq<Byte>, strings: seq<Byte>, tableAt: int, k: nat)
    requires |table| % 28 == 0 && |directory| % 40 == 0 && k <= |directory| / 40
    requires LoadUpto(reg, directory, table, strings, tableAt, k).Some?
    ensures var l := LoadUpto(reg, directory, table, strings, tableAt, k).value;
            |l.ids| == k && Gathered(l.ids, l.entries, l.rows, tableAt)
  {
    hide Gathered, DirectoryRecord, TableRecord, Interned, Added;
    if k > 0 {
      DirectoryGathered(reg, directory, table, strings, tableAt, k - 1);
      var l := LoadUpto(reg, directory, table, strings, tableAt, k - 1).value;
      var l' := LoadUpto(reg, directory, table, strings, tableAt, k).value;
      var d := DirectoryRecord(directory, k - 1);
      var id := l'.ids[k - 1];
      assert l'.ids == l.ids + [id];
      GatheredMore(l.ids, l.entries, l.rows, tableAt, id, EntryOf(d));
    } else {
      NothingGathered(tableAt);
    }
  }

  lemma NothingGathered(tableAt: int)
    ensures Gathered([], map[], 0, tableAt)
  {
  }

  /** Its timeline ascends strictly, and its directory lists as many instruments as the header says, each
      once and within bounds, with as many rows between them as the header says. */
  lemma OpenedIndex(bs: seq<Byte>, reg: Reg)
    requires Open(bs, reg).Some?
    ensures |bs| >= 112
    ensures var index := Open(bs, reg).value.0;
            && index.date == ValueIn(bs, 16, I32) && |index.ids| == ValueIn(bs, 20, I32) && index.total == ValueIn(bs, 24, I64F)
            && (forall i :: 0 < i < |index.timeline| ==> index.timeline[i - 1] < index.timeline[i])
            && Gathered(index.ids, index.entries, index.total, ValueIn(bs, 32, I64F))
  {
    hide GetField, Get, CrcOf, LoadUpto, Gathered, Stamps;
    HeaderValuesIn(bs);
    var h := HeaderIn(bs);
    var table := RegionIn(bs, h.tableAt, h.tableBytes, h.tableCrc).value;
    var strings := RegionIn(bs, h.stringsAt, h.stringsBytes, h.stringsCrc).value;
    var directory := RegionIn(bs, h.directoryAt, h.directoryBytes, h.directoryCrc).value;
    DirectoryGathered(reg, directory, table, strings, h.tableAt, |directory| / 40);
  }

  /** Rows that are handed out come from bytes that match their checksum, are as many as the directory says,
      and begin and end when it says. */
  lemma DecodedRows(bs: seq<Byte>, e: Entry)
    requires Materialise(bs, e).Some?
    ensures 0 <= e.blobOffset <= e.blobOffset + e.blobBytes <= |bs|
         && CrcOf(bs[e.blobOffset..e.blobOffset + e.blobBytes]) == e.blobCrc
    ensures var rows := Materialise(bs, e).value;
            |rows| == e.rowCount && (rows != [] ==> rows[0].ts == e.first && rows[|rows| - 1].ts == e.last)
  {
    hide CrcOf, DecodeColumns, Cast32;
  }

  // ----- blocks -------------------------------------------------------------------------------

  /** Differences are packed 128 to a block. */
  lemma BlockLaw(ds: seq<I64>)
    requires ds != []
    ensures BlocksBytes(ds) == if |ds| <= 128 then BlockBytes(ds) else BlockBytes(ds[..128]) + BlocksBytes(ds[128..])
  {
    hide BlockBytes;
    if |ds| <= 128 {
      assert ds[..|ds|] == ds && ds[|ds|..] == [];
      assert BlockBytes(ds) + [] == BlockBytes(ds);
    }
  }

  /** A block's width is the least that holds its range; ranges of more than 56 bits take whole words. */
  lemma WidthLaw(range: U64)
    ensures var w := Width(range);
            && (w == 64 <==> range >= Pow2(56)) && (w != 64 ==> w <= 56)
            && range < Pow2(w) && (0 < w < 64 ==> range >= Pow2(w - 1))
  {
    hide Pow2;
    Pow2Words();
    BitsAreLeast(range);
    var bits := BitsFor(range);
    Pow2Between(bits);
  }

  lemma {:induction false} BitsAreLeast(range: U64)
    ensures var bits := BitsFor(range); range < Pow2(bits) && (bits > 0 ==> range >= Pow2(bits - 1))
  {
    if range > 0 {
      BitsAreLeast(range / 2);
      var half := BitsFor(range / 2);
      assert Pow2(half + 1) == 2 * Pow2(half);
      if half > 0 { assert Pow2(half) == 2 * Pow2(half - 1); }
    }
  }

  /** Powers grow, so widths are ordered as the numbers they hold. */
  lemma Pow2Between(bits: nat)
    ensures bits <= 56 ==> Pow2(bits) <= Pow2(56)
    ensures bits > 56 ==> Pow2(bits - 1) >= Pow2(56)
  {
    if bits <= 56 { Pow2Grows(bits, 56); } else { Pow2Grows(56, bits - 1); }
  }

  // ----- contracts ----------------------------------------------------------------------------

  /** Two contracts are the same if they are of the same underlying, kind, expiry and strike, and, if they
      are options, of the same right; lot and tick sizes do not distinguish them. */
  lemma SameContractLaw(c: Contract, d: Contract)
    ensures IdentityOf(c) == IdentityOf(d) <==>
              && c.name == d.name && c.kind == d.kind && c.expiry == d.expiry && c.strike == d.strike
              && (c.kind == 2 ==> c.right == d.right)
  {
  }
}
