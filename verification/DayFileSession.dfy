/** Opening a day file and decoding its instruments on first use. */
module DayFileSession {
  import opened Types
  import opened Sessions
  import opened Words
  import opened Varint
  import opened Codec
  import opened CodecProperties
  import opened CodecEngine
  import opened Crc
  import opened Registry
  import opened Layout
  import opened DayFile
  import opened DayFileEngine

  method ReadRegion(bytes: seq<Byte>, at: int, n: int, crc: int, crcs: array<bv32>) returns (r: Option<seq<Byte>>)
    requires IsTable(crcs[..])
    ensures r == RegionIn(bytes, at, n, crc)
  {
    hide IsTable, CrcOf;
    if at < 0 || n < 0 || at + n > |bytes| { return None; }
    var actual := CrcOver(bytes[at..at + n], crcs);
    return if actual != crc then None else Some(bytes[at..at + n]);
  }

  method CheckHeader(bytes: seq<Byte>, crcs: array<bv32>) returns (ok: bool)
    requires IsTable(crcs[..])
    ensures ok == HeaderAccepted(bytes)
  {
    hide IsTable, CrcOf;
    if |bytes| < HEADER_BYTES || bytes[..|MAGIC|] != MAGIC { return false; }
    var h := HeaderIn(bytes);
    if h.version != VERSION { return false; }
    var crc := CrcOver(bytes[..CRC_AT], crcs);
    if crc != GetField(U32, bytes[CRC_AT..CRC_AT + 4]) { return false; }
    return h.fileBytes == |bytes| && h.instruments >= 0;
  }

  method ReadTimeline(raw: seq<Byte>, n: nat) returns (ok: bool, ts: seq<int>)
    requires |raw| == 8 * n
    ensures ok == Climbs(Stamps(raw, n)) && (ok ==> ts == Stamps(raw, n))
  {
    hide GetField;
    ts := [];
    for i := 0 to n
      invariant ts == Stamps(raw, n)[..i] && Climbs(ts)
    {
      var t := GetField(I64F, raw[8 * i..8 * i + 8]);
      assert t == Stamps(raw, n)[i];
      if i > 0 && t <= ts[i - 1] {
        assert Stamps(raw, n)[i - 1] == ts[i - 1];
        return false, ts;
      }
      ts := ts + [t];
    }
    assert ts == Stamps(raw, n);
    return true, ts;
  }

  lemma {:induction false} LoadStuck(reg: Reg, directory: seq<Byte>, table: seq<Byte>, strings: seq<Byte>, tableAt: int, j: nat, k: nat)
    requires |table| % 28 == 0 && |directory| % 40 == 0 && j <= k <= |directory| / 40
    requires LoadUpto(reg, directory, table, strings, tableAt, j).None?
    ensures LoadUpto(reg, directory, table, strings, tableAt, k).None?
  {
    hide LoadEntry;
    if j < k {
      LoadStuck(reg, directory, table, strings, tableAt, j, k - 1);
    }
  }

  /** Registers every instrument the directory lists. */
  method LoadDirectory(registry: InstrumentRegistry, directory: seq<Byte>, table: seq<Byte>, strings: seq<Byte>, tableAt: int)
    returns (ok: bool, ids: seq<nat>, entries: map<nat, Entry>, rows: int)
    requires registry.Valid() && |table| % 28 == 0 && |directory| % 40 == 0
    modifies registry
    ensures registry.Valid()
    ensures var l := LoadUpto(old(registry.Contents()), directory, table, strings, tableAt, |directory| / 40);
            ok == l.Some? && (ok ==> l.value == Loaded(registry.Contents(), ids, entries, rows))
  {
    hide EntryAccepted, TableRecord, DirectoryRecord, SpecOfRow, Interned, Added;
    ids, entries, rows := [], map[], 0;
    ghost var reg := registry.Contents();
    for k := 0 to |directory| / 40
      invariant registry.Valid()
      invariant LoadUpto(reg, directory, table, strings, tableAt, k) == Some(Loaded(registry.Contents(), ids, entries, rows))
    {
      ghost var l := Loaded(registry.Contents(), ids, entries, rows);
      var d := DirectoryRecord(directory, k);
      var accepted := EntryAccepted(d, table, strings, tableAt);
      if !accepted {
        LoadStuck(reg, directory, table, strings, tableAt, k + 1, |directory| / 40);
        return false, ids, entries, rows;
      }
      AcceptedRanges(d, table, strings, tableAt);
      var t := TableRecord(table, d[0]);
      var u := registry.InternUnderlying(strings[t[0]..t[0] + t[1]]);
      var id := registry.Add(SpecOfRow(t, u));
      if id in entries {
        assert LoadEntry(l, d, table, strings, tableAt).None?;
        LoadStuck(reg, directory, table, strings, tableAt, k + 1, |directory| / 40);
        return false, ids, entries, rows;
      }
      ids, entries, rows := ids + [id], entries[id := EntryOf(d)], rows + d[1];
      assert LoadEntry(l, d, table, strings, tableAt) == Some(Loaded(registry.Contents(), ids, entries, rows));
    }
    return true, ids, entries, rows;
  }

  lemma AcceptedRanges(d: seq<int>, table: seq<Byte>, strings: seq<Byte>, tableAt: int)
    requires |d| == |DIRECTORY| && |table| % 28 == 0 && EntryAccepted(d, table, strings, tableAt)
    ensures 0 <= d[0] < |table| / 28
    ensures var t := TableRecord(table, d[0]); 0 <= t[0] && 0 <= t[1] && t[0] + t[1] <= |strings|
  {
  }

  /** Reads the eight columns of a blob one after the other. */
  method DecodeRows(raw: seq<Byte>, e: Entry) returns (r: Option<seq<Quote>>)
    ensures r == DecodeBlob(raw, e)
  {
    hide Decode, DecodeColumns, RowsOf;
    NoColumns(raw, e.rowCount);
    var cols: seq<seq<I64>> := [];
    var rest := raw;
    for c := 0 to COLUMNS
      invariant |cols| == c && DecodeColumns(raw, e.rowCount, c) == Got(cols, rest)
    {
      var used, values := DecodeColumn(rest);
      NextColumn(raw, e.rowCount, c, cols, rest);
      if used == 0 || values.Length != e.rowCount {
        DecodeStuck(raw, e.rowCount, c + 1, COLUMNS);
        return None;
      }
      cols := cols + [values[..]];
      rest := rest[used..];
    }
    if rest != [] { return None; }
    var ts := cols[0];
    if ts != [] && (ts[0] != e.first || ts[|ts| - 1] != e.last) { return None; }
    return Some(RowsOf(cols, |ts|));
  }

  lemma NoColumns(raw: seq<Byte>, n: int)
    ensures DecodeColumns(raw, n, 0) == Got([], raw)
  {
  }

  /** One more column: what decoding the rest gives decides. */
  lemma NextColumn(raw: seq<Byte>, n: int, c: nat, cols: seq<seq<I64>>, rest: seq<Byte>)
    requires DecodeColumns(raw, n, c) == Got(cols, rest)
    ensures match Decode(rest)
            case Malformed => DecodeColumns(raw, n, c + 1).Malformed?
            case Got(xs, end) =>
              && |end| <= |rest| && end == rest[|rest| - |end|..]
              && DecodeColumns(raw, n, c + 1) == if |xs| != n then Malformed else Got(cols + [xs], end)
  {
    hide Decode;
    DecodedTail(rest);
  }

  lemma DecodedTail(bs: seq<Byte>)
    ensures Decode(bs).Got? ==> |Decode(bs).rest| <= |bs| && Decode(bs).rest == bs[|bs| - |Decode(bs).rest|..]
  {
    hide Decode;
    if Decode(bs).Got? { DecodeConsumes(bs); }
  }

  lemma {:induction false} DecodeStuck(raw: seq<Byte>, n: int, j: nat, k: nat)
    requires j <= k && DecodeColumns(raw, n, j).Malformed?
    ensures DecodeColumns(raw, n, k).Malformed?
  {
    hide Decode;
    if j < k {
      DecodeStuck(raw, n, j, k - 1);
    }
  }

  /** An opened file.  Columns are decoded on first use and kept. */
  class FileSession {
    const bytes: seq<Byte>
    const index: FileIndex
    const crcs: array<bv32>
    var decoded: map<nat, seq<Quote>>

    /** What is cached is what the file says. */
    ghost predicate Valid()
      reads this, crcs
    {
      && IsTable(crcs[..])
      && forall id :: id in decoded ==> id in index.entries && Materialise(bytes, index.entries[id]) == Some(decoded[id])
    }

    constructor (bytes: seq<Byte>, index: FileIndex, crcs: array<bv32>)
      requires IsTable(crcs[..])
      ensures Valid() && this.bytes == bytes && this.index == index && this.crcs == crcs && decoded == map[]
    {
      this.bytes, this.index, this.crcs, decoded := bytes, index, crcs, map[];
    }

    /** An instrument's rows: nothing if its bytes are damaged, no rows if the file does not hold it.
        The answer never depends on what was asked before. */
    method Quotes(id: nat) returns (r: Option<seq<Quote>>)
      requires Valid()
      modifies this`decoded
      ensures Valid()
      ensures r == if id in index.entries then Materialise(bytes, index.entries[id]) else Some([])
      ensures old(decoded.Keys) <= decoded.Keys <= old(decoded.Keys) + {id}
    {
      hide IsTable, RegionIn, DecodeBlob;
      if id in decoded { return Some(decoded[id]); }
      if id !in index.entries { return Some([]); }
      var e := index.entries[id];
      var raw := ReadRegion(bytes, e.blobOffset, e.blobBytes, e.blobCrc, crcs);
      if raw.None? { return None; }
      r := DecodeRows(raw.value, e);
      if r.Some? { decoded := decoded[id := r.value]; }
    }

    /** Answered from the directory: nothing is decoded. */
    method Printed(id: nat, t: int) returns (printed: bool)
      ensures printed == PrintedBy(index, id, t)
    {
      if id !in index.entries { return false; }
      return index.entries[id].rowCount > 0 && index.entries[id].first <= t;
    }
  }

  /** Opens a file image and registers its instruments; nothing if the file is not sound. */
  method OpenFile(bytes: seq<Byte>, registry: InstrumentRegistry, crcs: array<bv32>) returns (session: FileSession?)
    requires registry.Valid() && IsTable(crcs[..])
    modifies registry
    ensures registry.Valid()
    ensures session == null <==> Open(bytes, old(registry.Contents())).None?
    ensures session != null ==> fresh(session) && session.Valid() && session.decoded == map[] && session.bytes == bytes
                                && Open(bytes, old(registry.Contents())) == Some((session.index, registry.Contents()))
  {
    hide IsTable, HeaderAccepted, HeaderIn, RegionIn, Stamps, Climbs, LoadUpto;
    ghost var reg := registry.Contents();
    session := null;
    var sound := CheckHeader(bytes, crcs);
    if !sound { return; }
    AcceptedLength(bytes);
    var h := HeaderIn(bytes);
    var table := ReadRegion(bytes, h.tableAt, h.tableBytes, h.tableCrc, crcs);
    if table.None? { return; }
    var strings := ReadRegion(bytes, h.stringsAt, h.stringsBytes, h.stringsCrc, crcs);
    if strings.None? { return; }
    var directory := ReadRegion(bytes, h.directoryAt, h.directoryBytes, h.directoryCrc, crcs);
    if directory.None? { return; }
    var timeline := ReadRegion(bytes, h.timelineAt, 8 * h.timelineCount, h.timelineCrc, crcs);
    if timeline.None? { return; }
    assert Open(bytes, reg) == OpenRegions(h, table.value, strings.value, timeline.value, directory.value, reg);
    if |table.value| % 28 != 0 || |directory.value| % 40 != 0 || |directory.value| / 40 != h.instruments { return; }
    var climbs, ts := ReadTimeline(timeline.value, h.timelineCount);
    if !climbs { return; }
    var ok, ids, entries, rows := LoadDirectory(registry, directory.value, table.value, strings.value, h.tableAt);
    if !ok || rows != h.total { return; }
    session := new FileSession(bytes, FileIndex(h.date, ids, entries, ts, h.total), crcs);
  }

  lemma AcceptedLength(bytes: seq<Byte>)
    requires HeaderAccepted(bytes)
    ensures |bytes| >= HEADER_BYTES
  {
  }
}
