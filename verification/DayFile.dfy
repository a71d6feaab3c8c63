/** One trading day as a self-describing, checksummed byte image: what is written, and what a reader
    accepts. */
module DayFile {
  import opened Types
  import opened Sessions
  import opened Words
  import opened Varint
  import opened Codec
  import opened Crc
  import opened Registry
  import opened Layout

  /** A contract by what it is, never by an id. */
  datatype Contract = Contract(name: Name, kind: Byte, right: Byte, expiry: int, strike: int, lot: int, tick: int)

  datatype Series = Series(contract: Contract, rows: seq<Quote>)

  datatype Day = Day(date: int, series: seq<Series>, timeline: seq<int>)

  const MAGIC: seq<Byte> := [0x56, 0x46, 0x44, 0x41, 0x59, 0x30, 0x30, 0x33]
  const VERSION := 3
  const HEADER_BYTES := 112
  const CRC_AT := 104
  const COLUMNS := 8

  const HEADER: seq<Field> := [U32, U32, I32, I32, I64F, I64F, U32, U32, I64F, U32, U32, I64F, U32, U32, I64F, U32, U32, I64F]
  const TABLE: seq<Field> := [U32, U32, U8, U8, U16, I32, I32, I32, I32]
  const DIRECTORY: seq<Field> := [I32, U32, I64F, U32, U32, I64F, I64F]
  const STAMP: seq<Field> := [I64F]

  lemma RecordSizes()
    ensures Size(HEADER) == 96 && Size(TABLE) == 28 && Size(DIRECTORY) == 40 && Size(STAMP) == 8
  {
    hide Size;
    SizeOfFour(U32, U32, U8, U8);
    SizeOfFour(U16, I32, I32, I32);
    SizeOfOne(I32);
    assert TABLE == [U32, U32, U8, U8] + ([U16, I32, I32, I32] + [I32]);
    SizeConcat([U16, I32, I32, I32], [I32]);
    SizeConcat([U32, U32, U8, U8], [U16, I32, I32, I32] + [I32]);
    SizeOfFour(I32, U32, I64F, U32);
    SizeOfThree(U32, I64F, I64F);
    assert DIRECTORY == [I32, U32, I64F, U32] + [U32, I64F, I64F];
    SizeConcat([I32, U32, I64F, U32], [U32, I64F, I64F]);
    SizeOfOne(I64F);
    HeaderSize();
  }

  lemma HeaderSize()
    ensures Size(HEADER) == 96
  {
    hide Size;
    var region := [I64F, U32, U32];
    SizeOfThree(I64F, U32, U32);
    SizeOfFour(U32, U32, I32, I32);
    SizeOfOne(I64F);
    var tail := region + (region + (region + (region + [I64F])));
    SizeConcat(region, [I64F]);
    SizeConcat(region, region + [I64F]);
    SizeConcat(region, region + (region + [I64F]));
    SizeConcat(region, region + (region + (region + [I64F])));
    SizeConcat([I64F], tail);
    SizeConcat([U32, U32, I32, I32], [I64F] + tail);
    assert HEADER == [U32, U32, I32, I32] + ([I64F] + tail);
  }

  lemma SizeOfOne(a: Field)
    ensures Size([a]) == a.width
  {
  }

  lemma SizeOfThree(a: Field, b: Field, c: Field)
    ensures Size([a, b, c]) == a.width + b.width + c.width
  {
    assert [a, b, c][1..] == [b, c] && [b, c][1..] == [c];
    SizeOfOne(c);
  }

  lemma SizeOfFour(a: Field, b: Field, c: Field, d: Field)
    ensures Size([a, b, c, d]) == a.width + b.width + c.width + d.width
  {
    assert [a, b, c, d][1..] == [b, c, d];
    SizeOfThree(b, c, d);
  }

  lemma {:induction false} SizeConcat(a: seq<Field>, b: seq<Field>)
    ensures Size(a + b) == Size(a) + Size(b)
  {
    if a == [] {
      assert a + b == b;
    } else {
      assert (a + b)[1..] == a[1..] + b;
      SizeConcat(a[1..], b);
    }
  }

  function CrcOf(bs: seq<Byte>): (crc: int)
    ensures 0 <= crc < 0x1_0000_0000
  {
    Checksum(bs, 0) as int
  }

  // ----- columns ------------------------------------------------------------------------------

  function Part(q: Quote, c: nat): int {
    match c
    case 0 => q.ts
    case 1 => q.last
    case 2 => q.bid
    case 3 => q.ask
    case 4 => q.bidQty
    case 5 => q.askQty
    case 6 => q.lastQty
    case _ => q.openInterest
  }

  predicate Is64(x: int) { -0x8000_0000_0000_0000 <= x < 0x8000_0000_0000_0000 }

  predicate Is32(x: int) { -0x8000_0000 <= x < 0x8000_0000 }

  /** Times and open interest are 64-bit; prices and quantities are 32-bit. */
  predicate QuoteFits(q: Quote) {
    && Is64(q.ts) && Is64(q.openInterest)
    && Is32(q.last) && Is32(q.bid) && Is32(q.ask) && Is32(q.bidQty) && Is32(q.askQty) && Is32(q.lastQty)
  }

  predicate RowsFit(rows: seq<Quote>) {
    |rows| < 0x1_0000_0000 && forall i :: 0 <= i < |rows| ==> QuoteFits(rows[i])
  }

  function Column(rows: seq<Quote>, c: nat): (xs: seq<I64>)
    requires RowsFit(rows)
    ensures |xs| == |rows|
  {
    seq(|rows|, i requires 0 <= i < |rows| => Part(rows[i], c))
  }

  /** The first `c` columns of an instrument, one after the other. */
  function BlobUpto(rows: seq<Quote>, c: nat): seq<Byte>
    requires RowsFit(rows)
  {
    if c == 0 then [] else BlobUpto(rows, c - 1) + Encode(Column(rows, c - 1))
  }

  function Blob(rows: seq<Quote>): seq<Byte>
    requires RowsFit(rows)
  {
    BlobUpto(rows, COLUMNS)
  }

  // ----- writing ------------------------------------------------------------------------------

  predicate SeriesFit(series: seq<Series>) {
    forall j :: 0 <= j < |series| ==> series[j].rows != [] && RowsFit(series[j].rows)
  }

  function Payload(series: seq<Series>): seq<Byte>
    requires SeriesFit(series)
  {
    if series == [] then [] else Payload(series[..|series| - 1]) + Blob(series[|series| - 1].rows)
  }

  /** Each name lies in the string bytes at its offset. */
  ghost predicate Stored(bytes: seq<Byte>, offsets: map<Name, nat>) {
    forall n :: n in offsets ==> StoredAt(bytes, offsets[n], n)
  }

  predicate StoredAt(bytes: seq<Byte>, at: int, name: Name) {
    0 <= at && at + |name| <= |bytes| && bytes[at..at + |name|] == name
  }

  lemma StoredMore(bytes: seq<Byte>, offsets: map<Name, nat>, name: Name)
    requires Stored(bytes, offsets)
    ensures Stored(bytes + name, offsets[name := |bytes|])
  {
    assert (bytes + name)[|bytes|..] == name;
    forall n | n in offsets ensures StoredAt(bytes + name, offsets[n], n) {
      assert (bytes + name)[offsets[n]..offsets[n] + |n|] == bytes[offsets[n]..offsets[n] + |n|];
    }
  }

  /** Underlying names, each stored once, and where each was put. */
  function Strings(series: seq<Series>): (r: (seq<Byte>, map<Name, nat>))
    ensures Stored(r.0, r.1)
    ensures series != [] ==> series[|series| - 1].contract.name in r.1
  {
    if series == [] then ([], map[])
    else
      var (bytes, offsets) := Strings(series[..|series| - 1]);
      var name := series[|series| - 1].contract.name;
      if name in offsets then (bytes, offsets)
      else StoredMore(bytes, offsets, name); (bytes + name, offsets[name := |bytes|])
  }

  function TableRow(series: seq<Series>, j: nat): (row: seq<int>)
    requires j < |series|
    ensures |row| == |TABLE|
  {
    var c := series[j].contract;
    var offset := Strings(series[..j + 1]).1[c.name];
    [offset, |c.name|, c.kind, c.right, 0, c.expiry, c.strike, c.lot, c.tick]
  }

  function DirectoryRow(series: seq<Series>, j: nat): (row: seq<int>)
    requires j < |series| && SeriesFit(series)
    ensures |row| == |DIRECTORY|
  {
    var rows := series[j].rows;
    [j, |rows|, HEADER_BYTES + |Payload(series[..j])|, |Blob(rows)|, CrcOf(Blob(rows)), rows[0].ts, rows[|rows| - 1].ts]
  }

  function TableRows(series: seq<Series>): (rows: seq<seq<int>>)
    ensures |rows| == |series| && forall j :: 0 <= j < |series| ==> |rows[j]| == |TABLE| && rows[j] == TableRow(series, j)
  {
    seq(|series|, j requires 0 <= j < |series| => TableRow(series, j))
  }

  function DirectoryRows(series: seq<Series>): (rows: seq<seq<int>>)
    requires SeriesFit(series)
    ensures |rows| == |series| && forall j :: 0 <= j < |series| ==> |rows[j]| == |DIRECTORY| && rows[j] == DirectoryRow(series, j)
  {
    seq(|series|, j requires 0 <= j < |series| => DirectoryRow(series, j))
  }

  function StampRows(ts: seq<int>): (rows: seq<seq<int>>)
    ensures |rows| == |ts| && forall i :: 0 <= i < |ts| ==> |rows[i]| == |STAMP| && rows[i] == [ts[i]]
  {
    seq(|ts|, i requires 0 <= i < |ts| => [ts[i]])
  }

  function TotalRows(series: seq<Series>): nat {
    if series == [] then 0 else TotalRows(series[..|series| - 1]) + |series[|series| - 1].rows|
  }

  /** The five regions after the header, in file order. */
  datatype Regions = Regions(payload: seq<Byte>, table: seq<Byte>, strings: seq<Byte>, timeline: seq<Byte>, directory: seq<Byte>)
  {
    function TableAt(): nat { HEADER_BYTES + |payload| }
    function StringsAt(): nat { TableAt() + |table| }
    function TimelineAt(): nat { StringsAt() + |strings| }
    function DirectoryAt(): nat { TimelineAt() + |timeline| }
    function End(): nat { DirectoryAt() + |directory| }
    function All(): (bs: seq<Byte>)
      ensures |bs| == End() - HEADER_BYTES
    {
      payload + table + strings + timeline + directory
    }
  }

  function RegionsOf(day: Day): Regions
    requires SeriesFit(day.series)
  {
    Regions(Payload(day.series), PutAll(TABLE, TableRows(day.series)), Strings(day.series).0,
            PutAll(STAMP, StampRows(day.timeline)), PutAll(DIRECTORY, DirectoryRows(day.series)))
  }

  function HeaderValues(day: Day, r: Regions): (vs: seq<int>)
    ensures |vs| == |HEADER|
  {
    [VERSION, 0, day.date, |day.series|, TotalRows(day.series),
     r.TableAt(), |r.table|, CrcOf(r.table),
     r.StringsAt(), |r.strings|, CrcOf(r.strings),
     r.TimelineAt(), |day.timeline|, CrcOf(r.timeline),
     r.DirectoryAt(), |r.directory|, CrcOf(r.directory),
     r.End()]
  }

  function HeaderFront(day: Day, r: Regions): (bs: seq<Byte>)
    ensures |bs| == CRC_AT
  {
    RecordSizes();
    MAGIC + Layout.Put(HEADER, HeaderValues(day, r))
  }

  function HeaderImage(day: Day, r: Regions): (bs: seq<Byte>)
    ensures |bs| == HEADER_BYTES
  {
    HeaderFront(day, r) + PutField(U32, CrcOf(HeaderFront(day, r))) + [0, 0, 0, 0]
  }

  /** The whole file. */
  function Image(day: Day): seq<Byte>
    requires SeriesFit(day.series)
  {
    HeaderImage(day, RegionsOf(day)) + RegionsOf(day).All()
  }

  // ----- reading ------------------------------------------------------------------------------

  datatype Entry = Entry(rowCount: int, blobOffset: int, blobBytes: int, blobCrc: int, first: int, last: int)

  datatype FileIndex = FileIndex(date: int, ids: seq<nat>, entries: map<nat, Entry>, timeline: seq<int>, total: int)

  /** The header's fields, in file order after the magic. */
  datatype Header = Header(version: int, flags: int, date: int, instruments: int, total: int,
                           tableAt: int, tableBytes: int, tableCrc: int,
                           stringsAt: int, stringsBytes: int, stringsCrc: int,
                           timelineAt: int, timelineCount: int, timelineCrc: int,
                           directoryAt: int, directoryBytes: int, directoryCrc: int, fileBytes: int)

  function HeaderOf(vs: seq<int>): Header
    requires |vs| == |HEADER|
  {
    Header(vs[0], vs[1], vs[2], vs[3], vs[4], vs[5], vs[6], vs[7], vs[8], vs[9], vs[10], vs[11], vs[12], vs[13], vs[14],
           vs[15], vs[16], vs[17])
  }

  function HeaderIn(bs: seq<Byte>): Header
    requires |bs| >= HEADER_BYTES
  {
    RecordSizes();
    HeaderOf(Get(HEADER, bs[|MAGIC|..CRC_AT]))
  }

  /** Magic, version, checksum and length are all as they should be. */
  predicate HeaderAccepted(bs: seq<Byte>) {
    && |bs| >= HEADER_BYTES
    && bs[..|MAGIC|] == MAGIC
    && HeaderIn(bs).version == VERSION
    && GetField(U32, bs[CRC_AT..CRC_AT + 4]) == CrcOf(bs[..CRC_AT])
    && HeaderIn(bs).fileBytes == |bs|
    && HeaderIn(bs).instruments >= 0
  }

  /** A region that lies inside the file and matches its checksum. */
  function RegionIn(bs: seq<Byte>, at: int, n: int, crc: int): (r: Option<seq<Byte>>)
    ensures r.Some? ==> |r.value| == n
  {
    if at < 0 || n < 0 || at + n > |bs| || CrcOf(bs[at..at + n]) != crc then None else Some(bs[at..at + n])
  }

  function Stamps(bs: seq<Byte>, n: nat): (ts: seq<int>)
    requires |bs| == 8 * n
    ensures |ts| == n
  {
    seq(n, i requires 0 <= i < n => GetField(I64F, bs[8 * i..8 * i + 8]))
  }

  predicate Climbs(ts: seq<int>) {
    forall i :: 0 < i < |ts| ==> ts[i - 1] < ts[i]
  }

  datatype Loaded = Loaded(reg: Reg, ids: seq<nat>, entries: map<nat, Entry>, rows: int)

  function TableRecord(table: seq<Byte>, j: int): (row: seq<int>)
    requires |table| % 28 == 0 && 0 <= j < |table| / 28
    ensures |row| == |TABLE|
  {
    RecordSizes();
    RowAt(TABLE, table, j)
  }

  function DirectoryRecord(directory: seq<Byte>, j: int): (row: seq<int>)
    requires |directory| % 40 == 0 && 0 <= j < |directory| / 40
    ensures |row| == |DIRECTORY|
  {
    RecordSizes();
    RowAt(DIRECTORY, directory, j)
  }

  function EntryOf(d: seq<int>): Entry
    requires |d| == |DIRECTORY|
  {
    Entry(d[1], d[2], d[3], d[4], d[5], d[6])
  }

  function SpecOfRow(t: seq<int>, underlying: nat): Spec
    requires |t| == |TABLE|
  {
    Spec(underlying, AsByte(t[2]), AsByte(t[3]), t[5], t[6], t[7], t[8])
  }

  function AsByte(x: int): Byte { x % 256 }

  /** What one directory record asks for is in range. */
  predicate EntryAccepted(d: seq<int>, table: seq<Byte>, strings: seq<Byte>, tableAt: int)
    requires |d| == |DIRECTORY| && |table| % 28 == 0
  {
    && 0 <= d[0] < |table| / 28
    && d[2] >= HEADER_BYTES && d[2] + d[3] <= tableAt
    && d[6] >= d[5]
    && (var t := TableRecord(table, d[0]); t[0] + t[1] <= |strings| && t[0] >= 0 && t[1] >= 0)
  }

  /** One directory record: intern the name, add the contract, remember where its columns are. */
  function LoadEntry(l: Loaded, d: seq<int>, table: seq<Byte>, strings: seq<Byte>, tableAt: int): Option<Loaded>
    requires |d| == |DIRECTORY| && |table| % 28 == 0
  {
    if !EntryAccepted(d, table, strings, tableAt) then None
    else
      var t := TableRecord(table, d[0]);
      var (r1, u) := Interned(l.reg, strings[t[0]..t[0] + t[1]]);
      var (r2, id) := Added(r1, SpecOfRow(t, u));
      if id in l.entries then None
      else Some(Loaded(r2, l.ids + [id], l.entries[id := EntryOf(d)], l.rows + d[1]))
  }

  function LoadUpto(reg: Reg, directory: seq<Byte>, table: seq<Byte>, strings: seq<Byte>, tableAt: int, k: nat): Option<Loaded>
    requires |table| % 28 == 0 && |directory| % 40 == 0 && k <= |directory| / 40
  {
    if k == 0 then Some(Loaded(reg, [], map[], 0))
    else match LoadUpto(reg, directory, table, strings, tableAt, k - 1)
      case None => None
      case Some(l) => LoadEntry(l, DirectoryRecord(directory, k - 1), table, strings, tableAt)
  }

  /** Reads header, tables, timeline and directory; nothing if anything is out of place. */
  function Open(bs: seq<Byte>, reg: Reg): Option<(FileIndex, Reg)> {
    if !HeaderAccepted(bs) then None
    else
      var h := HeaderIn(bs);
      var table := RegionIn(bs, h.tableAt, h.tableBytes, h.tableCrc);
      var strings := RegionIn(bs, h.stringsAt, h.stringsBytes, h.stringsCrc);
      var directory := RegionIn(bs, h.directoryAt, h.directoryBytes, h.directoryCrc);
      var timeline := RegionIn(bs, h.timelineAt, 8 * h.timelineCount, h.timelineCrc);
      if table.None? || strings.None? || directory.None? || timeline.None? then None
      else OpenRegions(h, table.value, strings.value, timeline.value, directory.value, reg)
  }

  function OpenRegions(h: Header, table: seq<Byte>, strings: seq<Byte>, timeline: seq<Byte>, directory: seq<Byte>, reg: Reg)
    : Option<(FileIndex, Reg)>
    requires |timeline| == 8 * h.timelineCount
  {
    if |table| % 28 != 0 || |directory| % 40 != 0 || |directory| / 40 != h.instruments
       || !Climbs(Stamps(timeline, h.timelineCount)) then None
    else match LoadUpto(reg, directory, table, strings, h.tableAt, |directory| / 40)
      case None => None
      case Some(l) =>
        if l.rows != h.total then None
        else Some((FileIndex(h.date, l.ids, l.entries, Stamps(timeline, h.timelineCount), h.total), l.reg))
  }

  // ----- decoding one instrument --------------------------------------------------------------

  /** The first `c` columns, each of exactly `n` values, and the bytes after them. */
  function DecodeColumns(raw: seq<Byte>, n: int, c: nat): (r: Parsed<seq<seq<I64>>>)
    ensures r.Got? ==> |r.value| == c && forall k :: 0 <= k < c ==> |r.value[k]| == n
  {
    if c == 0 then Got([], raw)
    else match DecodeColumns(raw, n, c - 1)
      case Malformed => Malformed
      case Got(cols, rest) =>
        match Decode(rest)
        case Malformed => Malformed
        case Got(xs, end) => if |xs| != n then Malformed else Got(cols + [xs], end)
  }

  function RowOf(cols: seq<seq<I64>>, i: nat): Quote
    requires |cols| == COLUMNS && forall k :: 0 <= k < COLUMNS ==> i < |cols[k]|
  {
    Quote(cols[0][i], Cast32(cols[1][i]), Cast32(cols[2][i]), Cast32(cols[3][i]),
          Cast32(cols[4][i]), Cast32(cols[5][i]), Cast32(cols[6][i]), cols[7][i])
  }

  function RowsOf(cols: seq<seq<I64>>, n: nat): (rows: seq<Quote>)
    requires |cols| == COLUMNS && forall k :: 0 <= k < COLUMNS ==> |cols[k]| == n
    ensures |rows| == n
  {
    seq(n, i requires 0 <= i < n => RowOf(cols, i))
  }

  /** An instrument's rows, checked at the point of use. */
  function Materialise(bs: seq<Byte>, e: Entry): Option<seq<Quote>> {
    match RegionIn(bs, e.blobOffset, e.blobBytes, e.blobCrc)
    case None => None
    case Some(raw) => DecodeBlob(raw, e)
  }

  function DecodeBlob(raw: seq<Byte>, e: Entry): Option<seq<Quote>> {
    match DecodeColumns(raw, e.rowCount, COLUMNS)
    case Malformed => None
    case Got(cols, rest) =>
      if rest != [] then None
      else
        var ts := cols[0];
        if ts != [] && (ts[0] != e.first || ts[|ts| - 1] != e.last) then None
        else Some(RowsOf(cols, |ts|))
  }

  /** The directory's answer to whether an instrument had printed by `t`. */
  predicate PrintedBy(index: FileIndex, id: nat, t: int) {
    id in index.entries && index.entries[id].rowCount > 0 && index.entries[id].first <= t
  }
}
