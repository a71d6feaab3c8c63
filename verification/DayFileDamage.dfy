/** A written file that changed by a byte is refused, at the latest when the byte would be used. */
module DayFileDamage {
  import opened Types
  import opened Words
  import opened Crc
  import opened Registry
  import opened Layout
  import opened DayFile
  import opened DayFileProperties

  lemma CrcInjective(xs: seq<Byte>, ys: seq<Byte>)
    requires CrcOf(xs) == CrcOf(ys)
    ensures Checksum(xs, 0) == Checksum(ys, 0)
  {
    hide Checksum;
    RegistersFromNumbers(Checksum(xs, 0), Checksum(ys, 0));
  }

  lemma RegistersFromNumbers(x: bv32, y: bv32)
    requires x as int == y as int
    ensures x == y
  {
    assert (x as int) as bv32 == x;
    assert (y as int) as bv32 == y;
  }

  /** One changed byte changes the checksum. */
  lemma ByteChangesCrc(xs: seq<Byte>, i: nat, v: Byte)
    requires i < |xs| && v != xs[i]
    ensures CrcOf(xs[i := v]) != CrcOf(xs)
  {
    hide Checksum, CrcOf;
    assert xs[i := v][i] == v;
    WindowDetected(xs, xs[i := v], i, 0);
    if CrcOf(xs[i := v]) == CrcOf(xs) { CrcInjective(xs[i := v], xs); }
  }

  /** Damage inside a checked region. */
  lemma RegionDamaged(bs: seq<Byte>, i: nat, v: Byte, at: int, n: int, crc: int)
    requires RegionIn(bs, at, n, crc).Some? && at <= i < at + n && v != bs[i]
    ensures RegionIn(bs[i := v], at, n, crc).None?
  {
    hide CrcOf;
    assert bs[i := v][at..at + n] == bs[at..at + n][i - at := v];
    ByteChangesCrc(bs[at..at + n], i - at, v);
  }

  /** Damage elsewhere. */
  lemma RegionUntouched(bs: seq<Byte>, i: nat, v: Byte, at: int, n: int, crc: int)
    requires i < |bs| && !(at <= i < at + n)
    ensures RegionIn(bs[i := v], at, n, crc) == RegionIn(bs, at, n, crc)
  {
    hide CrcOf;
    if 0 <= at && 0 <= n && at + n <= |bs| {
      assert bs[i := v][at..at + n] == bs[at..at + n];
    }
  }

  lemma HeaderDamaged(bs: seq<Byte>, i: nat, v: Byte)
    requires HeaderAccepted(bs) && i < CRC_AT + 4 && v != bs[i]
    ensures !HeaderAccepted(bs[i := v])
  {
    hide CrcOf, HeaderIn, GetField;
    var bs' := bs[i := v];
    if i < CRC_AT {
      assert bs'[..CRC_AT] == bs[..CRC_AT][i := v] && bs'[CRC_AT..CRC_AT + 4] == bs[CRC_AT..CRC_AT + 4];
      ByteChangesCrc(bs[..CRC_AT], i, v);
    } else {
      assert bs'[..CRC_AT] == bs[..CRC_AT];
      assert bs'[CRC_AT..CRC_AT + 4][i - CRC_AT] == v;
      if GetField(U32, bs'[CRC_AT..CRC_AT + 4]) == GetField(U32, bs[CRC_AT..CRC_AT + 4]) {
        FieldInjective(U32, bs'[CRC_AT..CRC_AT + 4], bs[CRC_AT..CRC_AT + 4]);
      }
    }
  }

  lemma HeaderUntouched(bs: seq<Byte>, i: nat, v: Byte)
    requires HeaderAccepted(bs) && CRC_AT + 4 <= i < |bs|
    ensures HeaderAccepted(bs[i := v]) && HeaderIn(bs[i := v]) == HeaderIn(bs)
  {
    hide CrcOf, HeaderOf, Get, GetField;
    var bs' := bs[i := v];
    assert bs'[..CRC_AT] == bs[..CRC_AT] && bs'[CRC_AT..CRC_AT + 4] == bs[CRC_AT..CRC_AT + 4];
    assert bs'[|MAGIC|..CRC_AT] == bs[|MAGIC|..CRC_AT] && bs'[..|MAGIC|] == bs[..|MAGIC|];
  }

  /** Damage past the header in a region that opening reads. */
  lemma OpenDamaged(day: Day, reg: Reg, i: nat, v: Byte)
    requires Storable(day) && SeriesFit(day.series) && i < |Image(day)| && v != Image(day)[i]
    requires RegionsOf(day).TableAt() <= i || i < CRC_AT + 4
    ensures Open(Image(day)[i := v], reg).None?
  {
    hide Storable, RegionsOf, Image, HeaderAccepted, HeaderIn, RegionIn, CrcOf, OpenRegions, TotalRows;
    var bs, r := Image(day), RegionsOf(day);
    HeaderReads(day, bs);
    if i < CRC_AT + 4 {
      HeaderDamaged(bs, i, v);
    } else {
      RegionsRead(day, bs);
      RegionSizes(day);
      ImageSize(day, bs);
      RegionOrder(r);
      HeaderUntouched(bs, i, v);
      if i < r.StringsAt() {
        RegionDamaged(bs, i, v, r.TableAt(), |r.table|, CrcOf(r.table));
      } else if i < r.TimelineAt() {
        RegionDamaged(bs, i, v, r.StringsAt(), |r.strings|, CrcOf(r.strings));
      } else if i < r.DirectoryAt() {
        RegionDamaged(bs, i, v, r.TimelineAt(), |r.timeline|, CrcOf(r.timeline));
      } else {
        RegionDamaged(bs, i, v, r.DirectoryAt(), |r.directory|, CrcOf(r.directory));
      }
    }
  }

  /** Damage in the reserved word or in the payload goes unseen when the file is opened. */
  lemma OpenUntouched(day: Day, reg: Reg, i: nat, v: Byte)
    requires Storable(day) && SeriesFit(day.series) && CRC_AT + 4 <= i < RegionsOf(day).TableAt() <= |Image(day)|
    ensures Open(Image(day)[i := v], reg) == Open(Image(day), reg)
  {
    hide Storable, RegionsOf, Image, HeaderAccepted, HeaderIn, RegionIn, CrcOf, OpenRegions, TotalRows;
    var bs, r := Image(day), RegionsOf(day);
    HeaderReads(day, bs);
    RegionSizes(day);
    RegionOrder(r);
    HeaderUntouched(bs, i, v);
    RegionUntouched(bs, i, v, r.TableAt(), |r.table|, CrcOf(r.table));
    RegionUntouched(bs, i, v, r.StringsAt(), |r.strings|, CrcOf(r.strings));
    RegionUntouched(bs, i, v, r.TimelineAt(), |r.timeline|, CrcOf(r.timeline));
    RegionUntouched(bs, i, v, r.DirectoryAt(), |r.directory|, CrcOf(r.directory));
  }

  /** Every payload byte belongs to one instrument's blob. */
  lemma {:induction false} BlobHolding(series: seq<Series>, i: nat) returns (j: nat)
    requires SeriesFit(series) && i < |Payload(series)|
    ensures j < |series| && |Payload(series[..j])| <= i < |Payload(series[..j])| + |Blob(series[j].rows)|
  {
    hide Blob;
    var k := |series| - 1;
    if i < |Payload(series[..k])| {
      j := BlobHolding(series[..k], i);
      assert series[..k][..j] == series[..j];
    } else {
      j := k;
    }
  }

  lemma {:induction false} PayloadOrder(series: seq<Series>, j: nat, k: nat)
    requires SeriesFit(series) && j < k <= |series|
    ensures |Payload(series[..j])| + |Blob(series[j].rows)| <= |Payload(series[..k])|
  {
    hide Blob;
    assert series[..k][..k - 1] == series[..k - 1] && series[..k][k - 1] == series[k - 1];
    if j < k - 1 {
      PayloadOrder(series, j, k - 1);
    }
  }

  function EntryAt(day: Day, j: nat): Entry
    requires SeriesFit(day.series) && j < |day.series|
  {
    EntryOf(DirectoryRow(day.series, j))
  }

  predicate Occupies(e: Entry, i: int) {
    e.blobOffset <= i < e.blobOffset + e.blobBytes
  }

  lemma EntryExtent(day: Day, j: nat)
    requires SeriesFit(day.series) && j < |day.series|
    ensures EntryAt(day, j).blobOffset == HEADER_BYTES + |Payload(day.series[..j])|
    ensures EntryAt(day, j).blobBytes == |Blob(day.series[j].rows)|
  {
  }

  /** Blobs do not overlap. */
  lemma EntriesApart(day: Day, j: nat, k: nat, i: int)
    requires SeriesFit(day.series) && j < |day.series| && k < |day.series| && j != k && Occupies(EntryAt(day, j), i)
    ensures !Occupies(EntryAt(day, k), i)
  {
    hide Blob, Payload, EntryAt;
    EntryExtent(day, j);
    EntryExtent(day, k);
    if j < k { PayloadOrder(day.series, j, k); } else { PayloadOrder(day.series, k, j); }
  }

  /** An instrument whose bytes did not change decodes as before. */
  lemma EntryUntouched(day: Day, i: nat, v: Byte, k: nat)
    requires Storable(day) && SeriesFit(day.series) && k < |day.series| && i < |Image(day)| && !Occupies(EntryAt(day, k), i)
    ensures Materialise(Image(day)[i := v], EntryAt(day, k)) == Some(day.series[k].rows)
  {
    hide Storable, Image, RegionIn, DecodeBlob, CrcOf, Blob, Payload, DirectoryRow, EntryOf;
    var e := EntryAt(day, k);
    RegionUntouched(Image(day), i, v, e.blobOffset, e.blobBytes, e.blobCrc);
    EntryDecodes(day, k, Image(day));
  }

  /** Only the instrument whose bytes changed is affected, and it is refused. */
  lemma PayloadDamaged(day: Day, i: nat, v: Byte) returns (j: nat)
    requires Storable(day) && SeriesFit(day.series) && HEADER_BYTES <= i < RegionsOf(day).TableAt() <= |Image(day)| && v != Image(day)[i]
    ensures j < |day.series| && Materialise(Image(day)[i := v], EntryAt(day, j)).None?
    ensures forall k :: 0 <= k < |day.series| && k != j ==> Materialise(Image(day)[i := v], EntryAt(day, k)) == Some(day.series[k].rows)
  {
    hide Storable, Image, RegionIn, DecodeBlob, CrcOf, Blob, Payload, DirectoryRow, EntryOf;
    var bs := Image(day);
    j := BlobHolding(day.series, i - HEADER_BYTES);
    EntryExtent(day, j);
    var e := EntryAt(day, j);
    BlobRegion(day, j, bs);
    RegionDamaged(bs, i, v, e.blobOffset, e.blobBytes, e.blobCrc);
    forall k | 0 <= k < |day.series| && k != j
      ensures Materialise(bs[i := v], EntryAt(day, k)) == Some(day.series[k].rows)
    {
      EntriesApart(day, j, k, i);
      EntryUntouched(day, i, v, k);
    }
  }

  /** One changed byte anywhere in a written file is caught if and only if it lies outside the reserved
      word of the header: either the file no longer opens, or it opens as before and exactly one
      instrument, the one whose bytes changed, no longer decodes while every other one is unharmed. */
  lemma DamageIsCaught(day: Day, reg: Reg, i: nat, v: Byte)
    requires Storable(day) && Coherent(reg) && SeriesFit(day.series) && i < |Image(day)| && v != Image(day)[i]
    ensures var bs := Image(day)[i := v];
            (CRC_AT + 4 <= i < HEADER_BYTES) <==>
              (Open(bs, reg) == Open(Image(day), reg) && forall k :: 0 <= k < |day.series| ==> Materialise(bs, EntryAt(day, k)) == Some(day.series[k].rows))
    ensures var bs := Image(day)[i := v];
            !(CRC_AT + 4 <= i < HEADER_BYTES) ==>
              Open(bs, reg).None?
              || (Open(bs, reg) == Open(Image(day), reg)
                  && exists j :: 0 <= j < |day.series| && Materialise(bs, EntryAt(day, j)).None?
                               && forall k :: 0 <= k < |day.series| && k != j ==> Materialise(bs, EntryAt(day, k)) == Some(day.series[k].rows))
  {
    hide Storable, Image, Open, Materialise, RegionsOf, EntryAt, Coherent;
    ImageSize(day, Image(day));
    RegionOrder(RegionsOf(day));
    OpenRestores(day, reg);
    if RegionsOf(day).TableAt() <= i || i < CRC_AT + 4 {
      OpenDamaged(day, reg, i, v);
    } else {
      OpenUntouched(day, reg, i, v);
      if HEADER_BYTES <= i {
        var j := PayloadDamaged(day, i, v);
      } else {
        forall k | 0 <= k < |day.series| ensures Materialise(Image(day)[i := v], EntryAt(day, k)) == Some(day.series[k].rows) {
          EntryExtent(day, k);
          EntryUntouched(day, i, v, k);
        }
      }
    }
  }
}
