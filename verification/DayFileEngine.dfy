/** The day file's writer, its lazy reader, and the read-back check, as loops over growing buffers. */
module DayFileEngine {
  import opened Types
  import opened Sessions
  import opened Events
  import opened Words
  import opened Codec
  import opened CodecEngine
  import opened Crc
  import opened Registry
  import opened Layout
  import opened DayFile
  import opened DayFileProperties

  // ----- a session as a day -------------------------------------------------------------------

  function KindCode(k: Kind): Byte {
    match k
    case Spot => 0
    case Future => 1
    case OptionKind => OPTION_KIND
  }

  function RightCode(r: Types.Right): Byte { if r.Call? then 0 else 1 }

  function ContractOf(s: InstrumentSpec, names: seq<Name>): Contract
    requires 0 <= s.underlying < |names|
  {
    Contract(names[s.underlying], KindCode(s.kind), RightCode(s.right), s.expiry, s.strike, s.lotSize, s.tickSize)
  }

  /** Every listed instrument is registered, its underlying has a name, and its rows are machine-sized. */
  ghost predicate Listed(s: Session, names: seq<Name>, ids: seq<int>) {
    forall k :: 0 <= k < |ids| ==>
      && 0 <= ids[k] < |s.registry| && 0 <= s.registry[ids[k]].underlying < |names| && RowsFit(Quotes(s, ids[k]))
  }

  /** The instruments that have rows, in the session's order. */
  function SeriesOf(s: Session, names: seq<Name>, ids: seq<int>): (r: seq<Series>)
    requires Listed(s, names, ids)
    ensures SeriesFit(r)
  {
    if ids == [] then []
    else
      var id := ids[|ids| - 1];
      SeriesOf(s, names, ids[..|ids| - 1])
      + if Quotes(s, id) == [] then [] else [Series(ContractOf(s.registry[id], names), Quotes(s, id))]
  }

  function DayOf(s: Session, names: seq<Name>): Day
    requires Listed(s, names, s.ids)
  {
    Day(s.date, SeriesOf(s, names, s.ids), Timeline(s))
  }

  // ----- writing ------------------------------------------------------------------------------

  method CrcOver(data: seq<Byte>, table: array<bv32>) returns (crc: int)
    requires IsTable(table[..])
    ensures crc == CrcOf(data)
  {
    hide Checksum, IsTable;
    var c := Crc32(data, table, 0);
    crc := c as int;
  }

  /** Appends the eight columns of one instrument. */
  method EncodeRows(rows: seq<Quote>, before: seq<Byte>) returns (blob: seq<Byte>)
    requires RowsFit(rows)
    ensures blob == before + Blob(rows)
  {
    hide Encode;
    blob := before;
    for c := 0 to COLUMNS
      invariant blob == before + BlobUpto(rows, c)
    {
      var values: seq<I64> := [];
      for i := 0 to |rows|
        invariant values == Column(rows, c)[..i]
      {
        assert QuoteFits(rows[i]);
        values := values + [Part(rows[i], c)];
      }
      assert values == Column(rows, c);
      var used: nat;
      blob, used := EncodeColumn(values, blob);
    }
  }

  /** Files one instrument: its name, its table record, its columns and its directory record. */
  method FileSeries(ghost series: seq<Series>, x: Series, crcs: array<bv32>, blob0: seq<Byte>, table0: seq<seq<int>>,
                    directory0: seq<seq<int>>, strings0: seq<Byte>, interned0: map<Name, nat>)
    returns (blob: seq<Byte>, table: seq<seq<int>>, directory: seq<seq<int>>, strings: seq<Byte>, interned: map<Name, nat>)
    requires IsTable(crcs[..]) && SeriesFit(series + [x])
    requires SeriesFit(series) && blob0 == Payload(series) && table0 == TableRows(series) && directory0 == DirectoryRows(series)
    requires (strings0, interned0) == Strings(series)
    ensures blob == Payload(series + [x]) && table == TableRows(series + [x]) && directory == DirectoryRows(series + [x])
    ensures (strings, interned) == Strings(series + [x])
  {
    hide Payload, Strings, Blob, CrcOf, IsTable, TableRow, DirectoryRow;
    assert (series + [x])[|series|] == x && (series + [x])[..|series|] == series;
    assert RowsFit(x.rows) && x.rows != [];
    var c := x.contract;
    strings, interned := strings0, interned0;
    if c.name !in interned {
      interned := interned[c.name := |strings|];
      strings := strings + c.name;
    }
    StringsNext(series, x);
    table := table0 + [[interned[c.name], |c.name|, c.kind, c.right, 0, c.expiry, c.strike, c.lot, c.tick]];
    TableNext(series, x);

    var start := HEADER_BYTES + |blob0|;
    blob := EncodeRows(x.rows, blob0);
    PayloadNext(series, x);
    var bytes := HEADER_BYTES + |blob| - start;
    assert blob[start - HEADER_BYTES..] == Blob(x.rows);
    var crc := CrcOver(blob[start - HEADER_BYTES..], crcs);
    directory := directory0 + [[|table| - 1, |x.rows|, start, bytes, crc, x.rows[0].ts, x.rows[|x.rows| - 1].ts]];
    DirectoryNext(series, x);
  }

  lemma StringsNext(series: seq<Series>, x: Series)
    ensures var (bytes, offsets) := Strings(series);
            Strings(series + [x]) == if x.contract.name in offsets then (bytes, offsets)
                                     else (bytes + x.contract.name, offsets[x.contract.name := |bytes|])
  {
    assert (series + [x])[..|series|] == series;
  }

  lemma TableNext(series: seq<Series>, x: Series)
    ensures var c := x.contract;
            && c.name in Strings(series + [x]).1
            && TableRows(series + [x])
               == TableRows(series) + [[Strings(series + [x]).1[c.name], |c.name|, c.kind, c.right, 0, c.expiry, c.strike, c.lot, c.tick]]
  {
    hide Strings;
    var all := series + [x];
    assert all[|series|] == x && all[..|all|] == all;
    forall j | 0 <= j < |series| ensures TableRow(all, j) == TableRow(series, j) {
      assert all[..j + 1] == series[..j + 1];
    }
  }

  lemma PayloadNext(series: seq<Series>, x: Series)
    requires SeriesFit(series + [x]) && SeriesFit(series) && RowsFit(x.rows)
    ensures Payload(series + [x]) == Payload(series) + Blob(x.rows)
  {
    assert (series + [x])[..|series|] == series;
  }

  lemma DirectoryNext(series: seq<Series>, x: Series)
    requires SeriesFit(series + [x]) && SeriesFit(series) && RowsFit(x.rows) && x.rows != []
    ensures DirectoryRows(series + [x])
         == DirectoryRows(series) + [[|series|, |x.rows|, HEADER_BYTES + |Payload(series)|, |Blob(x.rows)|, CrcOf(Blob(x.rows)),
                                      x.rows[0].ts, x.rows[|x.rows| - 1].ts]]
  {
    hide Payload, Blob, CrcOf;
    var all := series + [x];
    assert all[|series|] == x && all[..|series|] == series;
    forall j | 0 <= j < |series| ensures DirectoryRow(all, j) == DirectoryRow(series, j) {
      assert all[..j] == series[..j];
    }
  }

  /** The file image of a session. */
  method WriteDay(s: Session, names: seq<Name>, crcs: array<bv32>) returns (bytes: seq<Byte>)
    requires Sorted(s) && Listed(s, names, s.ids) && IsTable(crcs[..])
    requires (s.order != [] ==> IsEventOrder(s, s.order)) && (s.timeline != [] ==> IsTimeline(s, s.timeline))
    requires forall t :: Prints(s, t) ==> t > NO_TIME
    ensures bytes == Image(DayOf(s, names))
  {
    var steps := ReplaySteps(s);
    TimelineIs(s, steps);
    bytes := WriteSeries(s, names, steps, crcs);
  }

  method WriteSeries(s: Session, names: seq<Name>, timeline: seq<int>, crcs: array<bv32>) returns (bytes: seq<Byte>)
    requires Listed(s, names, s.ids) && IsTable(crcs[..])
    ensures bytes == Image(Day(s.date, SeriesOf(s, names, s.ids), timeline))
  {
    hide IsTable, Payload, Strings, TableRows, DirectoryRows, RowsFit, SeriesOf, Listed, TotalRows;
    var blob: seq<Byte>, strings: seq<Byte> := [], [];
    var table: seq<seq<int>>, directory: seq<seq<int>> := [], [];
    var interned: map<Name, nat> := map[];
    var total := 0;
    ghost var series: seq<Series> := [];
    NothingFiled(s, names);
    for k := 0 to |s.ids|
      invariant SeriesFit(series) && FiledUpto(s, names, k, series)
      invariant blob == Payload(series) && table == TableRows(series) && directory == DirectoryRows(series)
      invariant (strings, interned) == Strings(series) && total == TotalRows(series)
    {
      FilingNext(s, names, k, series);
      var id := s.ids[k];
      var rows := Quotes(s, id);
      if rows != [] {
        var x := Series(ContractOf(s.registry[id], names), rows);
        TotalNext(series, x);
        blob, table, directory, strings, interned := FileSeries(series, x, crcs, blob, table, directory, strings, interned);
        total := total + |rows|;
        series := series + [x];
      }
    }
    assert s.ids[..|s.ids|] == s.ids;
    bytes := Assemble(Day(s.date, SeriesOf(s, names, s.ids), timeline), s.date, timeline, blob, table, directory, strings, total, crcs);
  }

  ghost predicate FiledUpto(s: Session, names: seq<Name>, k: nat, series: seq<Series>) {
    k <= |s.ids| && Listed(s, names, s.ids[..k]) && series == SeriesOf(s, names, s.ids[..k])
  }

  lemma FilingNext(s: Session, names: seq<Name>, k: nat, series: seq<Series>)
    requires Listed(s, names, s.ids) && k < |s.ids| && FiledUpto(s, names, k, series)
    ensures 0 <= s.ids[k] < |s.registry| && 0 <= s.registry[s.ids[k]].underlying < |names|
    ensures var rows := Quotes(s, s.ids[k]);
            var next := if rows == [] then series else series + [Series(ContractOf(s.registry[s.ids[k]], names), rows)];
            SeriesFit(next) && FiledUpto(s, names, k + 1, next)
  {
    hide RowsFit;
    assert s.ids[..k + 1][..k] == s.ids[..k] && s.ids[..k + 1][k] == s.ids[k];
    assert forall j :: 0 <= j < k + 1 ==> s.ids[..k + 1][j] == s.ids[j];
  }

  lemma NothingFiled(s: Session, names: seq<Name>)
    ensures FiledUpto(s, names, 0, []) && TotalRows([]) == 0
    ensures SeriesFit([]) && Payload([]) == [] && TableRows([]) == [] && DirectoryRows([]) == [] && Strings([]) == ([], map[])
  {
  }

  lemma TotalNext(series: seq<Series>, x: Series)
    ensures TotalRows(series + [x]) == TotalRows(series) + |x.rows|
  {
    assert (series + [x])[..|series|] == series;
  }

  /** Lays the regions out one after the other behind the header that describes them. */
  method Assemble(ghost day: Day, date: int, timeline: seq<int>, blob: seq<Byte>, table: seq<seq<int>>, directory: seq<seq<int>>,
                  strings: seq<Byte>, total: int, crcs: array<bv32>)
    returns (bytes: seq<Byte>)
    requires IsTable(crcs[..]) && SeriesFit(day.series) && day.date == date && day.timeline == timeline
    requires blob == Payload(day.series) && table == TableRows(day.series) && directory == DirectoryRows(day.series)
    requires strings == Strings(day.series).0 && total == TotalRows(day.series)
    ensures bytes == Image(day)
  {
    hide IsTable, Payload, Strings, CrcOf, TotalRows, PutAll, Layout.Put, PutField;
    RecordSizes();
    var tableBytes := PutAll(TABLE, table);
    var stamps := PutAll(STAMP, StampRows(timeline));
    var directoryBytes := PutAll(DIRECTORY, directory);
    ghost var r := RegionsOf(day);

    var tableCrc := CrcOver(tableBytes, crcs);
    var stringsCrc := CrcOver(strings, crcs);
    var timelineCrc := CrcOver(stamps, crcs);
    var directoryCrc := CrcOver(directoryBytes, crcs);
    var at0 := HEADER_BYTES + |blob|;
    var at1 := at0 + |tableBytes|;
    var at2 := at1 + |strings|;
    var at3 := at2 + |stamps|;
    var values := [VERSION, 0, date, |directory|, total,
                   at0, |tableBytes|, tableCrc,
                   at1, |strings|, stringsCrc,
                   at2, |timeline|, timelineCrc,
                   at3, |directoryBytes|, directoryCrc,
                   at3 + |directoryBytes|];
    assert values == HeaderValues(day, r);
    var front := MAGIC + Layout.Put(HEADER, values);
    var headerCrc := CrcOver(front, crcs);
    bytes := front + PutField(U32, headerCrc) + [0, 0, 0, 0];
    assert bytes == HeaderImage(day, r);
    bytes := bytes + (blob + tableBytes + strings + stamps + directoryBytes);
  }
}
