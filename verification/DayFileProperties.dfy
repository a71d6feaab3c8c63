/** What the day file guarantees: opening what was written restores it, the directory answers as the
    data would, and damage is refused. */
module DayFileProperties {
  import opened Types
  import opened Sessions
  import opened Words
  import opened Varint
  import opened Codec
  import opened CodecProperties
  import opened Registry
  import opened Layout
  import opened DayFile

  // ----- what can be stored -------------------------------------------------------------------

  /** A contract's identity, with its underlying by name. */
  datatype Identity = Identity(name: Name, kind: Byte, expiry: int, strike: int, right: Byte)

  function IdentityOf(c: Contract): Identity {
    Identity(c.name, c.kind, c.expiry, c.strike, if c.kind == OPTION_KIND then c.right else 0)
  }

  predicate ContractFits(c: Contract) {
    Is32(c.expiry) && Is32(c.strike) && Is32(c.lot) && Is32(c.tick)
  }

  ghost predicate DistinctContracts(series: seq<Series>) {
    forall i, j :: 0 <= i < j < |series| ==> IdentityOf(series[i].contract) != IdentityOf(series[j].contract)
  }

  /** Time-ordered rows, distinct contracts, and sizes that fit the fields that record them. */
  ghost predicate Storable(day: Day) {
    && Is32(day.date) && SeriesFit(day.series) && DistinctContracts(day.series)
    && (forall j :: 0 <= j < |day.series| ==> ContractFits(day.series[j].contract) && TimeSorted(day.series[j].rows))
    && (forall j :: 0 <= j < |day.series| ==> |Blob(day.series[j].rows)| < 0x1_0000_0000)
    && Climbs(day.timeline) && (forall i :: 0 <= i < |day.timeline| ==> Is64(day.timeline[i]))
    && |day.timeline| < 0x1_0000_0000 && 40 * |day.series| < 0x1_0000_0000
    && |Strings(day.series).0| < 0x1_0000_0000
    && TotalRows(day.series) < 0x8000_0000_0000_0000 && RegionsOf(day).End() < 0x8000_0000_0000_0000
  }

  lemma StorableFits(day: Day)
    requires Storable(day)
    ensures SeriesFit(day.series) && DistinctContracts(day.series)
    ensures forall j :: 0 <= j < |day.series| ==> ContractFits(day.series[j].contract) && TimeSorted(day.series[j].rows)
  {
  }

  // ----- fields -------------------------------------------------------------------------------

  lemma FieldRanges()
    ensures Range(U8) == 0x100 && Range(U16) == 0x1_0000 && Range(U32) == Range(I32) == 0x1_0000_0000
    ensures Range(I64F) == 0x1_0000_0000_0000_0000
  {
    Pow2Words();
    PowerOfPow2(8, 4);
    PowerOfPow2(8, 8);
    Pow2Add(16, 16);
    assert Pow2(16) == 0x1_0000;
    assert Power(256, 1) == 256;
    assert Power(256, 2) == 256 * Power(256, 1);
  }

  lemma UnsignedHolds(v: int)
    ensures 0 <= v < 0x1_0000_0000 ==> Holds(U32, v)
    ensures 0 <= v < 0x1_0000 ==> Holds(U16, v)
    ensures 0 <= v < 0x100 ==> Holds(U8, v)
  {
    FieldRanges();
  }

  lemma SignedHolds(v: int)
    ensures Is32(v) ==> Holds(I32, v)
    ensures Is64(v) ==> Holds(I64F, v)
  {
    FieldRanges();
  }

  lemma Middle<T>(a: seq<T>, b: seq<T>, c: seq<T>)
    ensures (a + b + c)[|a|..|a| + |b|] == b
  {
  }

  // ----- the header ---------------------------------------------------------------------------

  lemma RegionSizes(day: Day)
    requires Storable(day)
    ensures var r := RegionsOf(day);
            && |r.table| == 28 * |day.series| && |r.directory| == 40 * |day.series| && |r.timeline| == 8 * |day.timeline|
            && |r.strings| < 0x1_0000_0000 && r.End() < 0x8000_0000_0000_0000
  {
    RecordSizes();
  }

  lemma HeaderHolds(day: Day)
    requires Storable(day)
    ensures AllHold(HEADER, HeaderValues(day, RegionsOf(day)))
  {
    var r := RegionsOf(day);
    var vs := HeaderValues(day, r);
    RegionSizes(day);
    HeaderFieldsHold(day, r);
  }

  lemma HeaderFieldsHold(day: Day, r: Regions)
    requires Is32(day.date) && 40 * |day.series| < 0x1_0000_0000 && TotalRows(day.series) < 0x8000_0000_0000_0000
    requires |r.table| == 28 * |day.series| && |r.directory| == 40 * |day.series| && |day.timeline| < 0x1_0000_0000
    requires |r.strings| < 0x1_0000_0000 && r.End() < 0x8000_0000_0000_0000
    ensures AllHold(HEADER, HeaderValues(day, r))
  {
    hide Holds, CrcOf, TotalRows, Regions.TableAt, Regions.StringsAt, Regions.TimelineAt, Regions.DirectoryAt, Regions.End;
    var vs := HeaderValues(day, r);
    RegionOrder(r);
    forall i | 0 <= i < |HEADER| ensures Holds(HEADER[i], vs[i]) {
      UnsignedHolds(vs[i]);
      SignedHolds(vs[i]);
    }
  }

  lemma RegionOrder(r: Regions)
    ensures HEADER_BYTES <= r.TableAt() <= r.StringsAt() <= r.TimelineAt() <= r.DirectoryAt() <= r.End()
  {
  }

  lemma HeaderReads(day: Day, bs: seq<Byte>)
    requires Storable(day) && bs == Image(day)
    ensures HeaderAccepted(bs) && HeaderIn(bs) == HeaderOf(HeaderValues(day, RegionsOf(day)))
  {
    hide Storable, HeaderValues, RegionsOf, CrcOf, Size, GetField, PutField;
    StorableFits(day);
    var r := RegionsOf(day);
    var vs := HeaderValues(day, r);
    var front := HeaderFront(day, r);
    var crc := PutField(U32, CrcOf(front));
    RecordSizes();
    HeaderHolds(day);
    RecordRoundTrip(HEADER, vs);
    UnsignedHolds(CrcOf(front));
    FieldRoundTrip(U32, CrcOf(front));
    assert bs == front + crc + ([0, 0, 0, 0] + r.All());
    Middle(front, crc, [0, 0, 0, 0] + r.All());
    assert bs[..CRC_AT] == front;
    assert bs[..|MAGIC|] == MAGIC && bs[|MAGIC|..CRC_AT] == Layout.Put(HEADER, vs);
    HeaderClaims(day, r, bs);
  }

  lemma HeaderClaims(day: Day, r: Regions, bs: seq<Byte>)
    requires |bs| == r.End()
    ensures var h := HeaderOf(HeaderValues(day, r)); h.version == VERSION && h.fileBytes == |bs| && h.instruments >= 0
  {
  }

  /** Each region is found where the header says, with the checksum the header says. */
  lemma RegionsRead(day: Day, bs: seq<Byte>)
    requires Storable(day) && bs == Image(day)
    ensures var r := RegionsOf(day);
            && RegionIn(bs, r.TableAt(), |r.table|, CrcOf(r.table)) == Some(r.table)
            && RegionIn(bs, r.StringsAt(), |r.strings|, CrcOf(r.strings)) == Some(r.strings)
            && RegionIn(bs, r.TimelineAt(), |r.timeline|, CrcOf(r.timeline)) == Some(r.timeline)
            && RegionIn(bs, r.DirectoryAt(), |r.directory|, CrcOf(r.directory)) == Some(r.directory)
            && bs[HEADER_BYTES..r.TableAt()] == r.payload
  {
    hide Storable, RegionsOf, CrcOf, HeaderImage;
    StorableFits(day);
    var r := RegionsOf(day);
    ImageSlices(HeaderImage(day, r), r);
  }

  lemma ImageSlices(head: seq<Byte>, r: Regions)
    requires |head| == HEADER_BYTES
    ensures var bs := head + r.All();
            && |bs| == r.End()
            && bs[HEADER_BYTES..r.TableAt()] == r.payload
            && bs[r.TableAt()..r.StringsAt()] == r.table
            && bs[r.StringsAt()..r.TimelineAt()] == r.strings
            && bs[r.TimelineAt()..r.DirectoryAt()] == r.timeline
            && bs[r.DirectoryAt()..r.End()] == r.directory
  {
  }

  // ----- the timeline -------------------------------------------------------------------------

  lemma TimelineReads(ts: seq<int>)
    requires forall i :: 0 <= i < |ts| ==> Is64(ts[i])
    ensures |PutAll(STAMP, StampRows(ts))| == 8 * |ts|
    ensures Stamps(PutAll(STAMP, StampRows(ts)), |ts|) == ts
  {
    RecordSizes();
    var bs := PutAll(STAMP, StampRows(ts));
    assert |bs| == 8 * |ts|;
    forall i | 0 <= i < |ts| ensures GetField(I64F, bs[8 * i..8 * i + 8]) == ts[i] {
      StampReads(ts, i);
    }
  }

  lemma StampReads(ts: seq<int>, i: nat)
    requires i < |ts| && Is64(ts[i])
    ensures |PutAll(STAMP, StampRows(ts))| == 8 * |ts|
    ensures GetField(I64F, PutAll(STAMP, StampRows(ts))[8 * i..8 * i + 8]) == ts[i]
  {
    hide GetField, PutField, Is64;
    RecordSizes();
    PutAllSlice(STAMP, StampRows(ts), i);
    OneStamp(ts[i]);
    SignedHolds(ts[i]);
    FieldRoundTrip(I64F, ts[i]);
  }

  lemma OneStamp(t: int)
    ensures Layout.Put(STAMP, [t]) == PutField(I64F, t)
  {
    hide PutField;
    assert STAMP[1..] == [] && [t][1..] == [];
    assert PutField(I64F, t) + [] == PutField(I64F, t);
  }

  // ----- the instrument table -----------------------------------------------------------------

  lemma {:induction false} StringsGrow(series: seq<Series>, k: nat)
    requires k <= |series|
    ensures Strings(series[..k]).0 <= Strings(series).0
  {
    hide Stored;
    if k == |series| {
      assert series[..k] == series;
    } else {
      var n := |series| - 1;
      assert series[..n][..k] == series[..k];
      StringsGrow(series[..n], k);
    }
  }

  /** Every name lies in the file's string bytes where its table record says. */
  lemma NameFound(series: seq<Series>, j: nat)
    requires j < |series|
    ensures StoredAt(Strings(series).0, TableRow(series, j)[0], series[j].contract.name)
  {
    hide Strings, StoredAt;
    StringsGrow(series, j + 1);
    LastNameStored(series[..j + 1]);
    PrefixStored(Strings(series[..j + 1]).0, Strings(series).0, TableRow(series, j)[0], series[j].contract.name);
  }

  lemma LastNameStored(series: seq<Series>)
    requires series != []
    ensures var named, name := Strings(series), series[|series| - 1].contract.name;
            name in named.1 && StoredAt(named.0, named.1[name], name)
  {
    hide Strings, StoredAt;
    NameStored(Strings(series).0, Strings(series).1, series[|series| - 1].contract.name);
  }

  lemma NameStored(bytes: seq<Byte>, offsets: map<Name, nat>, name: Name)
    requires Stored(bytes, offsets) && name in offsets
    ensures StoredAt(bytes, offsets[name], name)
  {
  }

  lemma PrefixStored(bytes: seq<Byte>, whole: seq<Byte>, at: int, name: Name)
    requires bytes <= whole && StoredAt(bytes, at, name)
    ensures StoredAt(whole, at, name)
  {
    assert whole[at..at + |name|] == bytes[at..at + |name|];
  }

  lemma TableHolds(day: Day, j: nat)
    requires Storable(day) && j < |day.series|
    ensures AllHold(TABLE, TableRow(day.series, j))
  {
    NameFound(day.series, j);
    StorableFits(day);
    TableRowHolds(day.series, j, |Strings(day.series).0|);
  }

  lemma TableRowHolds(series: seq<Series>, j: nat, size: nat)
    requires j < |series| && ContractFits(series[j].contract) && size < 0x1_0000_0000
    requires 0 <= TableRow(series, j)[0] && TableRow(series, j)[0] + |series[j].contract.name| <= size
    ensures AllHold(TABLE, TableRow(series, j))
  {
    hide Holds, Strings;
    var row := TableRow(series, j);
    forall i | 0 <= i < |TABLE| ensures Holds(TABLE[i], row[i]) {
      UnsignedHolds(row[i]);
      SignedHolds(row[i]);
    }
  }

  lemma TableReads(day: Day, j: nat)
    requires Storable(day) && j < |day.series|
    ensures var table := RegionsOf(day).table;
            |table| == 28 * |day.series| && |table| / 28 == |day.series| && TableRecord(table, j) == TableRow(day.series, j)
  {
    hide Storable, TableRow, Holds, RowAt, PutAll;
    StorableFits(day);
    RecordSizes();
    RegionSizes(day);
    forall k | 0 <= k < |day.series| ensures AllHold(TABLE, TableRows(day.series)[k]) {
      TableHolds(day, k);
    }
    TableRoundTrip(TABLE, TableRows(day.series), j);
  }

  // ----- the directory ------------------------------------------------------------------------

  lemma {:induction false} PayloadGrows(series: seq<Series>, k: nat)
    requires SeriesFit(series) && k <= |series|
    ensures Payload(series[..k]) <= Payload(series)
  {
    hide Blob;
    if k == |series| {
      assert series[..k] == series;
    } else {
      var n := |series| - 1;
      assert series[..n][..k] == series[..k];
      PayloadGrows(series[..n], k);
    }
  }

  /** An instrument's blob within the payload. */
  lemma BlobFound(series: seq<Series>, j: nat)
    requires SeriesFit(series) && j < |series|
    ensures var at, blob := |Payload(series[..j])|, Blob(series[j].rows);
            at + |blob| <= |Payload(series)| && Payload(series)[at..at + |blob|] == blob
  {
    hide Blob;
    PayloadGrows(series, j + 1);
    assert series[..j + 1][..j] == series[..j] && series[..j + 1][j] == series[j];
    var part := Payload(series[..j + 1]);
    var at, blob := |Payload(series[..j])|, Blob(series[j].rows);
    assert part[at..at + |blob|] == blob;
    assert Payload(series)[at..at + |blob|] == part[at..at + |blob|];
  }

  lemma DirectoryHolds(day: Day, j: nat)
    requires Storable(day) && j < |day.series|
    ensures AllHold(DIRECTORY, DirectoryRow(day.series, j))
  {
    hide RegionsOf, Payload, Blob, DirectoryRow;
    StorableFits(day);
    BlobFound(day.series, j);
    PayloadFits(day, j);
    DirectoryRowHolds(day.series, j, |Payload(day.series)|);
  }

  lemma PayloadFits(day: Day, j: nat)
    requires Storable(day) && j < |day.series|
    ensures |Payload(day.series)| + HEADER_BYTES < 0x8000_0000_0000_0000 && |Blob(day.series[j].rows)| < 0x1_0000_0000
    ensures |day.series| < 0x1000_0000
  {
    RegionOrder(RegionsOf(day));
  }

  lemma DirectoryRowHolds(series: seq<Series>, j: nat, size: nat)
    requires SeriesFit(series) && j < |series| && |Blob(series[j].rows)| < 0x1_0000_0000
    requires |series| < 0x1000_0000 && |Payload(series[..j])| <= size && size + HEADER_BYTES < 0x8000_0000_0000_0000
    ensures AllHold(DIRECTORY, DirectoryRow(series, j))
  {
    hide Holds, Payload, Blob, CrcOf;
    var row, rows := DirectoryRow(series, j), series[j].rows;
    assert QuoteFits(rows[0]) && QuoteFits(rows[|rows| - 1]);
    forall i | 0 <= i < |DIRECTORY| ensures Holds(DIRECTORY[i], row[i]) {
      UnsignedHolds(row[i]);
      SignedHolds(row[i]);
    }
  }

  lemma DirectoryReads(day: Day, j: nat)
    requires Storable(day) && j < |day.series|
    ensures var directory := RegionsOf(day).directory;
            && |directory| == 40 * |day.series| && |directory| / 40 == |day.series|
            && DirectoryRecord(directory, j) == DirectoryRow(day.series, j)
  {
    hide Storable, DirectoryRow, Holds, RowAt, PutAll;
    StorableFits(day);
    RecordSizes();
    RegionSizes(day);
    forall k | 0 <= k < |day.series| ensures AllHold(DIRECTORY, DirectoryRows(day.series)[k]) {
      DirectoryHolds(day, k);
    }
    TableRoundTrip(DIRECTORY, DirectoryRows(day.series), j);
  }

  // ----- loading ------------------------------------------------------------------------------

  function ContractIn(reg: Reg, id: nat): Contract
    requires id < |reg.specs| && 0 <= reg.specs[id].underlying < |reg.names|
  {
    var s := reg.specs[id];
    Contract(reg.names[s.underlying], s.kind, s.right, s.expiry, s.strike, s.lot, s.tick)
  }

  ghost predicate Knows(reg: Reg, id: nat, c: Contract) {
    && id < |reg.specs| && 0 <= reg.specs[id].underlying < |reg.names|
    && IdentityOf(ContractIn(reg, id)) == IdentityOf(c)
  }

  ghost predicate Known(reg: Reg, c: Contract) {
    exists id: nat :: Knows(reg, id, c)
  }

  lemma KnowsGrows(reg: Reg, reg': Reg, id: nat, c: Contract)
    requires Knows(reg, id, c) && Grows(reg, reg')
    ensures Knows(reg', id, c) && ContractIn(reg', id) == ContractIn(reg, id)
  {
    assert reg'.specs[id] == reg.specs[id];
    assert reg'.names[reg.specs[id].underlying] == reg.names[reg.specs[id].underlying];
  }

  /** In a coherent registry an identity belongs to one id. */
  lemma KnowsOnce(reg: Reg, i: nat, j: nat, c: Contract, d: Contract)
    requires Coherent(reg) && Knows(reg, i, c) && Knows(reg, j, d)
    ensures i == j <==> IdentityOf(c) == IdentityOf(d)
  {
    if IdentityOf(c) == IdentityOf(d) {
      var s, t := reg.specs[i], reg.specs[j];
      assert s.underlying == t.underlying;
      IdsAreIdentities(reg, i, j);
    }
  }

  /** Registering a contract by name: it is known afterwards, exactly as given if it was not known before. */
  lemma RegisteringKnows(reg: Reg, c: Contract)
    requires Coherent(reg)
    ensures var (r1, u) := Interned(reg, c.name);
            var (r2, id) := Added(r1, Spec(u, c.kind, c.right, c.expiry, c.strike, c.lot, c.tick));
            && Coherent(r2) && Grows(reg, r2) && Knows(r2, id, c)
            && (!Known(reg, c) ==> id == |reg.specs| == |r2.specs| - 1 && ContractIn(r2, id) == c)
            && (Known(reg, c) ==> r2.specs == reg.specs)
  {
    InternedKeeps(reg, c.name);
    var (r1, u) := Interned(reg, c.name);
    var s := Spec(u, c.kind, c.right, c.expiry, c.strike, c.lot, c.tick);
    AddedKeeps(r1, s);
    if k :| 0 <= k < |r1.specs| && Keys(r1.specs)[k] == KeyOf(s) {
      assert r1.names[u] == c.name;
      assert reg.specs[k].underlying == u < |reg.names|;
      assert Knows(reg, k, c);
    }
    if Known(reg, c) {
      var k: nat :| Knows(reg, k, c);
      assert r1.names[reg.specs[k].underlying] == c.name == r1.names[u];
      assert Keys(r1.specs)[k] == KeyOf(s);
    }
  }

  /** After `k` directory records: the first `k` contracts are registered and located. */
  ghost predicate Loading(series: seq<Series>, reg: Reg, l: Loaded, k: nat) {
    && SeriesFit(series) && k <= |series| == |DirectoryRows(series)| && |l.ids| == k
    && Coherent(l.reg) && Grows(reg, l.reg)
    && l.rows == TotalRows(series[..k])
    && (forall id :: id in l.entries <==> id in l.ids)
    && (forall j :: 0 <= j < k ==> LocatedAt(series, reg, l, j))
    && (forall i :: |reg.specs| <= i < |l.reg.specs| ==> i in l.ids)
  }

  ghost predicate LocatedAt(series: seq<Series>, reg: Reg, l: Loaded, j: nat)
    requires SeriesFit(series)
  {
    && j < |series| && j < |l.ids| && l.ids[j] in l.entries
    && Knows(l.reg, l.ids[j], series[j].contract)
    && (!Known(reg, series[j].contract) ==> ContractIn(l.reg, l.ids[j]) == series[j].contract)
    && l.entries[l.ids[j]] == EntryOf(DirectoryRow(series, j))
  }

  lemma LoadingStarts(series: seq<Series>, reg: Reg)
    requires SeriesFit(series) && Coherent(reg)
    ensures Loading(series, reg, Loaded(reg, [], map[], 0), 0)
  {
  }

  /** The record of contract `k` is accepted and names it. */
  lemma RecordAccepted(day: Day, k: nat)
    requires Storable(day) && k < |day.series|
    ensures var r := RegionsOf(day);
            var d := DirectoryRow(day.series, k);
            var c := day.series[k].contract;
            && |r.table| % 28 == 0 && EntryAccepted(d, r.table, r.strings, r.TableAt())
            && (var t := TableRecord(r.table, d[0]);
                && r.strings[t[0]..t[0] + t[1]] == c.name
                && forall u: nat :: SpecOfRow(t, u) == Spec(u, c.kind, c.right, c.expiry, c.strike, c.lot, c.tick))
  {
    hide Strings, Payload, Blob, PutAll, TableRecord, CrcOf, StoredAt;
    StorableFits(day);
    TableReads(day, k);
    NameAt(day.series, k);
    BlobFound(day.series, k);
    var rows := day.series[k].rows;
    SortedPair(rows, 0, |rows| - 1);
  }

  lemma NameAt(series: seq<Series>, j: nat)
    requires j < |series|
    ensures var at, name := TableRow(series, j)[0], series[j].contract.name;
            0 <= at && at + |name| <= |Strings(series).0| && Strings(series).0[at..at + |name|] == name
  {
    hide Strings, TableRow;
    NameFound(series, j);
  }

  /** An id already handed out in this file names one of the earlier contracts, never this one. */
  lemma NotAnother(series: seq<Series>, reg: Reg, l: Loaded, k: nat, id: nat, later: Reg)
    requires Loading(series, reg, l, k) && k < |series| && DistinctContracts(series) && id in l.ids && Grows(l.reg, later)
    ensures !Knows(later, id, series[k].contract)
  {
    var j :| 0 <= j < k && l.ids[j] == id;
    assert LocatedAt(series, reg, l, j);
    KnowsGrows(l.reg, later, id, series[j].contract);
  }

  lemma NewContract(series: seq<Series>, reg: Reg, l: Loaded, k: nat)
    requires Loading(series, reg, l, k) && k < |series| && DistinctContracts(series) && Coherent(reg)
    ensures Known(l.reg, series[k].contract) ==> Known(reg, series[k].contract)
  {
    var c := series[k].contract;
    if Known(l.reg, c) {
      var id: nat :| Knows(l.reg, id, c);
      if id < |reg.specs| {
        assert l.reg.specs[id] == reg.specs[id];
        UnderlyingKept(reg, l.reg, id, c);
      } else {
        NotAnother(series, reg, l, k, id, l.reg);
      }
    }
  }

  lemma UnderlyingKept(reg: Reg, reg': Reg, id: nat, c: Contract)
    requires Grows(reg, reg') && Knows(reg', id, c) && id < |reg.specs|
    ensures 0 <= reg.specs[id].underlying < |reg.names| ==> Known(reg, c)
  {
    assert reg'.specs[id] == reg.specs[id];
    if 0 <= reg.specs[id].underlying < |reg.names| {
      assert reg'.names[reg.specs[id].underlying] == reg.names[reg.specs[id].underlying];
      assert Knows(reg, id, c);
    }
  }

  /** What registering contract `k` does to the loaded state. */
  function LoadedNext(l: Loaded, c: Contract, e: Entry, rows: int): Loaded {
    var (r1, u) := Interned(l.reg, c.name);
    var (r2, id) := Added(r1, Spec(u, c.kind, c.right, c.expiry, c.strike, c.lot, c.tick));
    Loaded(r2, l.ids + [id], l.entries[id := e], l.rows + rows)
  }

  lemma FreshId(series: seq<Series>, reg: Reg, l: Loaded, k: nat)
    requires Loading(series, reg, l, k) && k < |series| && DistinctContracts(series)
    ensures var c := series[k].contract;
            var (r1, u) := Interned(l.reg, c.name);
            Added(r1, Spec(u, c.kind, c.right, c.expiry, c.strike, c.lot, c.tick)).1 !in l.entries
  {
    hide KeyOf, IdentityOf, ContractIn;
    var c := series[k].contract;
    var (r1, u) := Interned(l.reg, c.name);
    var (r2, id) := Added(r1, Spec(u, c.kind, c.right, c.expiry, c.strike, c.lot, c.tick));
    RegisteringKnows(l.reg, c);
    if id in l.ids { NotAnother(series, reg, l, k, id, r2); }
  }

  lemma LocatedStill(series: seq<Series>, reg: Reg, l: Loaded, l': Loaded, j: nat)
    requires SeriesFit(series) && LocatedAt(series, reg, l, j) && Grows(l.reg, l'.reg)
    requires l.ids <= l'.ids && l.ids[j] in l'.entries && l'.entries[l.ids[j]] == l.entries[l.ids[j]]
    ensures LocatedAt(series, reg, l', j)
  {
    KnowsGrows(l.reg, l'.reg, l.ids[j], series[j].contract);
  }

  lemma LoadingNext(series: seq<Series>, reg: Reg, l: Loaded, k: nat)
    requires Loading(series, reg, l, k) && k < |series| && DistinctContracts(series) && Coherent(reg)
    ensures Loading(series, reg, LoadedNext(l, series[k].contract, EntryOf(DirectoryRow(series, k)), |series[k].rows|), k + 1)
  {
    hide IdentityOf, KeyOf, ContractIn, DirectoryRow, EntryOf, Knows, Known, Interned, Added, Coherent;
    var c := series[k].contract;
    var (r1, u) := Interned(l.reg, c.name);
    var (r2, id) := Added(r1, Spec(u, c.kind, c.right, c.expiry, c.strike, c.lot, c.tick));
    var l' := LoadedNext(l, c, EntryOf(DirectoryRow(series, k)), |series[k].rows|);
    RegisteringKnows(l.reg, c);
    FreshId(series, reg, l, k);
    NewContract(series, reg, l, k);
    assert series[..k + 1][..k] == series[..k];
    forall j | 0 <= j < k + 1 ensures LocatedAt(series, reg, l', j) {
      if j < k {
        assert LocatedAt(series, reg, l, j);
        LocatedStill(series, reg, l, l', j);
      }
    }
    assert forall i :: 0 <= i < k ==> l'.ids[i] == l.ids[i];
    assert l'.ids[k] == id;
  }

  /** The regions of a storable day, with the sizes the tables must have. */
  ghost predicate RegionsFor(day: Day, r: Regions) {
    && Storable(day) && SeriesFit(day.series) && r == RegionsOf(day)
    && |r.table| == 28 * |day.series| && |r.directory| == 40 * |day.series|
  }

  function LoadRegions(r: Regions, n: nat, reg: Reg, k: nat): Option<Loaded>
    requires |r.table| == 28 * n && |r.directory| == 40 * n && k <= n
  {
    LoadUpto(reg, r.directory, r.table, r.strings, r.TableAt(), k)
  }

  function LoadRecord(r: Regions, n: nat, l: Loaded, k: nat): Option<Loaded>
    requires |r.table| == 28 * n && |r.directory| == 40 * n && k < n
  {
    LoadEntry(l, DirectoryRecord(r.directory, k), r.table, r.strings, r.TableAt())
  }

  lemma LoadRegionsStep(r: Regions, n: nat, reg: Reg, k: nat, l: Loaded, next: Loaded)
    requires |r.table| == 28 * n && |r.directory| == 40 * n && 0 < k <= n && LoadRegions(r, n, reg, k - 1) == Some(l)
    requires LoadRecord(r, n, l, k - 1) == Some(next)
    ensures LoadRegions(r, n, reg, k) == Some(next)
  {
    hide LoadEntry, DirectoryRecord;
  }

  lemma NothingLoaded(r: Regions, n: nat, reg: Reg)
    requires |r.table| == 28 * n && |r.directory| == 40 * n
    ensures LoadRegions(r, n, reg, 0) == Some(Loaded(reg, [], map[], 0))
  {
  }

  /** The reader's loop over the directory of a written file registers and locates every contract. */
  lemma {:induction false} LoadsAll(day: Day, r: Regions, reg: Reg, k: nat) returns (l: Loaded)
    requires RegionsFor(day, r) && Coherent(reg) && k <= |day.series|
    ensures LoadRegions(r, |day.series|, reg, k) == Some(l) && Loading(day.series, reg, l, k)
  {
    hide Storable, SeriesFit, Loading, RegionsOf, DirectoryRecord, LoadEntry, Coherent, LoadRegions, LoadedNext, DirectoryRow, EntryOf;
    if k == 0 {
      l := Loaded(reg, [], map[], 0);
      LoadingStarts(day.series, reg);
      NothingLoaded(r, |day.series|, reg);
    } else {
      var before := LoadsAll(day, r, reg, k - 1);
      DirectoryReads(day, k - 1);
      StorableFits(day);
      LoadsOne(day, reg, before, k - 1);
      l := LoadedNext(before, day.series[k - 1].contract, EntryOf(DirectoryRow(day.series, k - 1)), |day.series[k - 1].rows|);
      LoadRegionsStep(r, |day.series|, reg, k, before, l);
      LoadingNext(day.series, reg, before, k - 1);
    }
  }

  lemma LoadsOne(day: Day, reg: Reg, l: Loaded, k: nat)
    requires Storable(day) && k < |day.series| && SeriesFit(day.series) && Loading(day.series, reg, l, k)
    ensures var r := RegionsOf(day);
            && |r.table| % 28 == 0
            && LoadEntry(l, DirectoryRow(day.series, k), r.table, r.strings, r.TableAt())
               == Some(LoadedNext(l, day.series[k].contract, EntryOf(DirectoryRow(day.series, k)), |day.series[k].rows|))
  {
    hide Storable, Loading, RegionsOf, TableRecord, EntryAccepted, SpecOfRow, Coherent, DistinctContracts, Interned, Added, Blob, Payload, CrcOf;
    StorableFits(day);
    RecordAccepted(day, k);
    FreshId(day.series, reg, l, k);
    var r := RegionsOf(day);
    LoadEntryIs(l, DirectoryRow(day.series, k), r.table, r.strings, r.TableAt(), day.series[k].contract);
  }

  lemma LoadEntryIs(l: Loaded, d: seq<int>, table: seq<Byte>, strings: seq<Byte>, tableAt: int, c: Contract)
    requires |d| == |DIRECTORY| && |table| % 28 == 0 && EntryAccepted(d, table, strings, tableAt)
    requires var t := TableRecord(table, d[0]);
             && strings[t[0]..t[0] + t[1]] == c.name
             && forall u: nat :: SpecOfRow(t, u) == Spec(u, c.kind, c.right, c.expiry, c.strike, c.lot, c.tick)
    requires var (r1, u) := Interned(l.reg, c.name);
             Added(r1, Spec(u, c.kind, c.right, c.expiry, c.strike, c.lot, c.tick)).1 !in l.entries
    ensures LoadEntry(l, d, table, strings, tableAt) == Some(LoadedNext(l, c, EntryOf(d), d[1]))
  {
    hide Interned, Added, TableRecord, SpecOfRow, EntryOf;
    var t := TableRecord(table, d[0]);
    var (r1, u) := Interned(l.reg, strings[t[0]..t[0] + t[1]]);
    assert Interned(l.reg, strings[t[0]..t[0] + t[1]]) == Interned(l.reg, c.name);
    assert SpecOfRow(t, u) == Spec(u, c.kind, c.right, c.expiry, c.strike, c.lot, c.tick);
    var (r2, id) := Added(r1, SpecOfRow(t, u));
    assert id !in l.entries;
    assert LoadEntry(l, d, table, strings, tableAt) == Some(Loaded(r2, l.ids + [id], l.entries[id := EntryOf(d)], l.rows + d[1]));
  }

  // ----- decoding -----------------------------------------------------------------------------

  function Columns(rows: seq<Quote>, c: nat): (cols: seq<seq<I64>>)
    requires RowsFit(rows)
    ensures |cols| == c && forall k :: 0 <= k < c ==> |cols[k]| == |rows| && cols[k] == Column(rows, k)
  {
    seq(c, k requires 0 <= k < c => Column(rows, k))
  }

  lemma {:induction false} ColumnsDecode(rows: seq<Quote>, c: nat, t: seq<Byte>)
    requires RowsFit(rows)
    ensures DecodeColumns(BlobUpto(rows, c) + t, |rows|, c) == Got(Columns(rows, c), t)
  {
    hide Encode, Decode, Column;
    if c == 0 {
      assert BlobUpto(rows, 0) + t == t;
      assert Columns(rows, 0) == [];
    } else {
      var xs := Column(rows, c - 1);
      assert BlobUpto(rows, c) + t == BlobUpto(rows, c - 1) + (Encode(xs) + t);
      ColumnsDecode(rows, c - 1, Encode(xs) + t);
      ColumnRoundTrip(xs, t);
      assert Columns(rows, c) == Columns(rows, c - 1) + [xs];
    }
  }

  lemma CastKeeps(x: int)
    requires Is32(x)
    ensures Cast32(x) == x
  {
  }

  lemma RowKept(rows: seq<Quote>, i: nat)
    requires RowsFit(rows) && i < |rows|
    ensures RowOf(Columns(rows, COLUMNS), i) == rows[i]
  {
    hide Cast32, Columns;
    var q := rows[i];
    assert QuoteFits(q);
    CastKeeps(q.last);
    CastKeeps(q.bid);
    CastKeeps(q.ask);
    CastKeeps(q.bidQty);
    CastKeeps(q.askQty);
    CastKeeps(q.lastQty);
  }

  /** Decoding an instrument's blob gives back its rows. */
  lemma BlobDecodes(rows: seq<Quote>, e: Entry)
    requires RowsFit(rows) && rows != []
    requires e.rowCount == |rows| && e.first == rows[0].ts && e.last == rows[|rows| - 1].ts
    ensures DecodeBlob(Blob(rows), e) == Some(rows)
  {
    hide DecodeColumns, BlobUpto, RowOf, Columns;
    ColumnsDecode(rows, COLUMNS, []);
    assert BlobUpto(rows, COLUMNS) + [] == BlobUpto(rows, COLUMNS);
    var cols := Columns(rows, COLUMNS);
    assert cols[0][0] == rows[0].ts && cols[0][|rows| - 1] == rows[|rows| - 1].ts;
    forall i | 0 <= i < |rows| ensures RowsOf(cols, |rows|)[i] == rows[i] {
      RowKept(rows, i);
    }
    assert RowsOf(cols, |rows|) == rows;
  }

  lemma BlobRegion(day: Day, j: nat, bs: seq<Byte>)
    requires Storable(day) && j < |day.series| && bs == Image(day)
    ensures var e := EntryOf(DirectoryRow(day.series, j));
            RegionIn(bs, e.blobOffset, e.blobBytes, e.blobCrc) == Some(Blob(day.series[j].rows))
    ensures var e := EntryOf(DirectoryRow(day.series, j));
            HEADER_BYTES <= e.blobOffset && e.blobOffset + e.blobBytes <= RegionsOf(day).TableAt() <= |bs|
  {
    hide Storable, Payload, Blob, CrcOf, HeaderImage, PutAll, Strings;
    StorableFits(day);
    BlobFound(day.series, j);
    RegionsRead(day, bs);
    var r := RegionsOf(day);
    var at, n := |Payload(day.series[..j])|, |Blob(day.series[j].rows)|;
    ImageSize(day, bs);
    SliceOfSlice(bs, HEADER_BYTES, r.TableAt(), at, n);
  }

  lemma ImageSize(day: Day, bs: seq<Byte>)
    requires SeriesFit(day.series) && bs == Image(day)
    ensures |bs| == RegionsOf(day).End() && RegionsOf(day).TableAt() <= |bs|
  {
    hide RegionsOf, HeaderImage;
    RegionOrder(RegionsOf(day));
  }

  lemma SliceOfSlice(bs: seq<Byte>, lo: nat, hi: nat, at: nat, n: nat)
    requires lo <= hi <= |bs| && at + n <= hi - lo
    ensures bs[lo..hi][at..at + n] == bs[lo + at..lo + at + n]
  {
    var inner, direct := bs[lo..hi][at..at + n], bs[lo + at..lo + at + n];
    forall i | 0 <= i < n ensures inner[i] == direct[i] {
      assert bs[lo..hi][at + i] == bs[lo + at + i];
    }
  }

  lemma EntryDecodes(day: Day, j: nat, bs: seq<Byte>)
    requires Storable(day) && j < |day.series| && SeriesFit(day.series) && bs == Image(day)
    ensures Materialise(bs, EntryOf(DirectoryRow(day.series, j))) == Some(day.series[j].rows)
  {
    hide Storable, Blob, Payload, CrcOf, Image, DecodeBlob, RegionIn, RegionsOf;
    BlobRegion(day, j, bs);
    BlobDecodes(day.series[j].rows, EntryOf(DirectoryRow(day.series, j)));
  }

  // ----- the round trip -----------------------------------------------------------------------

  /** The day's series `j` is found under id `ids[j]`: same contract, same rows, and what the directory
      records of it is what was written. */
  ghost predicate Restored(day: Day, bs: seq<Byte>, index: FileIndex, before: Reg, after: Reg, j: nat)
    requires SeriesFit(day.series)
  {
    && j < |day.series| && j < |index.ids| && index.ids[j] in index.entries
    && Knows(after, index.ids[j], day.series[j].contract)
    && (!Known(before, day.series[j].contract) ==> ContractIn(after, index.ids[j]) == day.series[j].contract)
    && index.entries[index.ids[j]] == EntryOf(DirectoryRow(day.series, j))
    && Materialise(bs, index.entries[index.ids[j]]) == Some(day.series[j].rows)
  }

  lemma {:induction false} TotalOfAll(series: seq<Series>)
    ensures series[..|series|] == series && TotalRows(series[..|series|]) == TotalRows(series)
  {
    assert series[..|series|] == series;
  }

  lemma OpenIsOpenRegions(day: Day, bs: seq<Byte>, reg: Reg)
    requires Storable(day) && bs == Image(day) && SeriesFit(day.series)
    requires |RegionsOf(day).timeline| == 8 * |day.timeline|
    ensures var r := RegionsOf(day);
            Open(bs, reg) == OpenRegions(HeaderOf(HeaderValues(day, r)), r.table, r.strings, r.timeline, r.directory, reg)
  {
    hide Storable, HeaderAccepted, HeaderIn, RegionIn, OpenRegions, RegionsOf, CrcOf, Image, TotalRows;
    HeaderReads(day, bs);
    RegionsRead(day, bs);
    RegionSizes(day);
  }

  lemma OpenRegionsLoads(h: Header, r: Regions, n: nat, reg: Reg, l: Loaded)
    requires |r.timeline| == 8 * h.timelineCount && h.timelineCount >= 0 && |r.table| == 28 * n && |r.directory| == 40 * n
    requires h.instruments == n && h.tableAt == r.TableAt() && Climbs(Stamps(r.timeline, h.timelineCount))
    requires LoadRegions(r, n, reg, n) == Some(l) && l.rows == h.total
    ensures OpenRegions(h, r.table, r.strings, r.timeline, r.directory, reg)
         == Some((FileIndex(h.date, l.ids, l.entries, Stamps(r.timeline, h.timelineCount), h.total), l.reg))
  {
    hide LoadUpto, Stamps, Climbs;
  }

  /** What opening the image of `day` has to restore, `reg` being the registry before and `after` the one since. */
  ghost predicate Reopened(day: Day, reg: Reg, index: FileIndex, after: Reg)
    requires SeriesFit(day.series)
  {
    && index.date == day.date && index.timeline == day.timeline && index.total == TotalRows(day.series)
    && |index.ids| == |day.series| && Coherent(after) && Grows(reg, after)
    && (forall id :: id in index.entries <==> id in index.ids)
    && (forall i, j :: 0 <= i < j < |index.ids| ==> index.ids[i] != index.ids[j])
    && (forall j :: 0 <= j < |day.series| ==> Restored(day, Image(day), index, reg, after, j))
  }

  /** Once every record of a day's directory is loaded, what was opened is the day. */
  lemma LoadedIsReopened(day: Day, reg: Reg, l: Loaded)
    requires Storable(day) && Loading(day.series, reg, l, |day.series|)
    ensures Reopened(day, reg, FileIndex(day.date, l.ids, l.entries, day.timeline, TotalRows(day.series)), l.reg)
  {
    hide Storable, Image, Materialise, DirectoryRow, EntryOf, Knows, Known, ContractIn, Coherent, TotalRows;
    forall j | 0 <= j < |day.series|
      ensures LocatedAt(day.series, reg, l, j) && Materialise(Image(day), EntryOf(DirectoryRow(day.series, j))) == Some(day.series[j].rows)
    {
      EntryDecodes(day, j, Image(day));
    }
    forall i, j | 0 <= i < j < |l.ids| ensures l.ids[i] != l.ids[j] {
      SeparateIds(day, reg, l, i, j);
    }
  }

  lemma SeparateIds(day: Day, reg: Reg, l: Loaded, i: nat, j: nat)
    requires Storable(day) && Loading(day.series, reg, l, |day.series|) && i < j < |l.ids|
    ensures l.ids[i] != l.ids[j]
  {
    hide Knows, IdentityOf, EntryOf, DirectoryRow, Coherent;
    assert LocatedAt(day.series, reg, l, i) && LocatedAt(day.series, reg, l, j);
    KnowsOnce(l.reg, l.ids[i], l.ids[j], day.series[i].contract, day.series[j].contract);
  }

  /** Opening a written file, whatever the registry already holds, restores the day: its date, timeline
      and row count, every contract by identity (and exactly as written if the registry did not know
      it), and every instrument's eight columns. */
  lemma OpenRestores(day: Day, reg: Reg)
    requires Storable(day) && Coherent(reg)
    ensures SeriesFit(day.series)
    ensures Open(Image(day), reg).Some?
    ensures var (index, after) := Open(Image(day), reg).value; Reopened(day, reg, index, after)
  {
    hide Storable, RegionsOf, Image, Open, OpenRegions, LoadRegions, Stamps, Climbs, TotalRows, Reopened, LocatedAt;
    StorableFits(day);
    var bs, r := Image(day), RegionsOf(day);
    RegionSizes(day);
    DayTimeline(day);
    TotalOfAll(day.series);
    var l := LoadsAll(day, r, reg, |day.series|);
    OpenIsOpenRegions(day, bs, reg);
    OpenRegionsLoads(HeaderOf(HeaderValues(day, r)), r, |day.series|, reg, l);
    LoadedIsReopened(day, reg, l);
  }

  lemma DayTimeline(day: Day)
    requires Storable(day)
    ensures SeriesFit(day.series) && |RegionsOf(day).timeline| == 8 * |day.timeline|
    ensures Stamps(RegionsOf(day).timeline, |day.timeline|) == day.timeline && Climbs(day.timeline)
  {
    TimelineReads(day.timeline);
  }

  // ----- the directory's answers --------------------------------------------------------------

  /** Asking the directory whether an instrument had printed gives the answer that looking at its
      decoded rows gives, at every time. */
  lemma PrintedByAgrees(day: Day, reg: Reg, j: nat, t: int)
    requires Storable(day) && Coherent(reg) && j < |day.series| && SeriesFit(day.series)
    ensures Open(Image(day), reg).Some?
    ensures var index := Open(Image(day), reg).value.0;
            j < |index.ids| && (PrintedBy(index, index.ids[j], t) <==> IndexAtOrBefore(day.series[j].rows, t).Some?)
  {
    hide Storable, RegionsOf, Image, Open, CrcOf, Payload, Blob;
    OpenRestores(day, reg);
    StorableFits(day);
    var index := Open(Image(day), reg).value.0;
    assert Restored(day, Image(day), index, reg, Open(Image(day), reg).value.1, j);
    var rows := day.series[j].rows;
    var n := CountUpto(rows, t);
    SortedPair(rows, 0, n as int - 1);
  }

  /** An instrument the file does not hold has never printed, in the directory or by looking. */
  lemma UnlistedNeverPrinted(index: FileIndex, id: nat, t: int)
    requires id !in index.entries
    ensures !PrintedBy(index, id, t) && IndexAtOrBefore([], t).None?
  {
  }
}
