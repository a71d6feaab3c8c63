/** The writer's read-back: every finished file is opened again and compared value for value. */
module DayFileCheck {
  import opened Types
  import opened Sessions
  import opened Words
  import opened Crc
  import opened Registry
  import opened DayFile
  import opened DayFileProperties
  import opened DayFileEngine
  import opened DayFileSession

  /** With no empty columns, series and instruments correspond one to one, in order. */
  lemma {:induction false} SeriesAreInstruments(s: Session, names: seq<Name>, ids: seq<int>)
    requires Listed(s, names, ids) && forall k :: 0 <= k < |ids| ==> Quotes(s, ids[k]) != []
    ensures |SeriesOf(s, names, ids)| == |ids|
    ensures forall k :: 0 <= k < |ids| ==> SeriesOf(s, names, ids)[k] == Series(ContractOf(s.registry[ids[k]], names), Quotes(s, ids[k]))
  {
    hide RowsFit;
    if ids != [] {
      var n := |ids| - 1;
      assert forall k :: 0 <= k < n ==> ids[..n][k] == ids[k];
      SeriesAreInstruments(s, names, ids[..n]);
    }
  }

  function Observations(s: Session, ids: seq<int>): nat {
    if ids == [] then 0 else Observations(s, ids[..|ids| - 1]) + |Quotes(s, ids[|ids| - 1])|
  }

  lemma {:induction false} ObservationsAreRows(s: Session, names: seq<Name>, ids: seq<int>)
    requires Listed(s, names, ids)
    ensures Observations(s, ids) == TotalRows(SeriesOf(s, names, ids))
  {
    hide RowsFit;
    if ids != [] {
      var n := |ids| - 1;
      assert forall k :: 0 <= k < n ==> ids[..n][k] == ids[k];
      ObservationsAreRows(s, names, ids[..n]);
      var before := SeriesOf(s, names, ids[..n]);
      if Quotes(s, ids[n]) != [] {
        TotalNext(before, Series(ContractOf(s.registry[ids[n]], names), Quotes(s, ids[n])));
      } else {
        assert SeriesOf(s, names, ids) == before;
      }
    }
  }

  predicate SameContract(a: Contract, b: Contract) {
    a.kind == b.kind && a.expiry == b.expiry && a.strike == b.strike && a.right == b.right && a.lot == b.lot && a.name == b.name
  }

  /** The first of the session's instruments that is the same contract. */
  method Locate(s: Session, names: seq<Name>, c: Contract) returns (found: Option<nat>)
    requires Listed(s, names, s.ids)
    ensures found.Some? ==> found.value < |s.ids| && SameContract(ContractOf(s.registry[s.ids[found.value]], names), c)
    ensures found.None? ==> forall k :: 0 <= k < |s.ids| ==> !SameContract(ContractOf(s.registry[s.ids[k]], names), c)
  {
    for k := 0 to |s.ids|
      invariant forall j :: 0 <= j < k ==> !SameContract(ContractOf(s.registry[s.ids[j]], names), c)
    {
      if SameContract(ContractOf(s.registry[s.ids[k]], names), c) { return Some(k); }
    }
    return None;
  }

  /** What opening with a fresh registry leaves behind, for one instrument of the file. */
  ghost predicate Recovered(s: Session, names: seq<Name>, bytes: seq<Byte>, index: FileIndex, reg: Reg, j: nat)
    requires Listed(s, names, s.ids)
  {
    && j < |s.ids| && j < |index.ids| && index.ids[j] in index.entries && index.ids[j] < |reg.specs|
    && 0 <= reg.specs[index.ids[j]].underlying < |reg.names|
    && ContractIn(reg, index.ids[j]) == ContractOf(s.registry[s.ids[j]], names)
    && Materialise(bytes, index.entries[index.ids[j]]) == Some(Quotes(s, s.ids[j]))
  }

  lemma OpenRecovers(s: Session, names: seq<Name>, bytes: seq<Byte>)
    requires Sorted(s) && Listed(s, names, s.ids) && Storable(DayOf(s, names)) && bytes == Image(DayOf(s, names))
    ensures Open(bytes, FRESH).Some?
    ensures var (index, reg) := Open(bytes, FRESH).value;
            && index.date == s.date && index.timeline == Timeline(s) && index.total == Observations(s, s.ids)
            && |index.ids| == |s.ids| && forall j :: 0 <= j < |s.ids| ==> Recovered(s, names, bytes, index, reg, j)
    ensures forall i, j :: 0 <= i < |s.ids| && 0 <= j < |s.ids| && SameInstrument(s, names, i, j) ==> i == j
  {
    hide Storable, Image, Open, Materialise, RowsFit, Timeline;
    assert Coherent(FRESH);
    var day := DayOf(s, names);
    OpenRestores(day, FRESH);
    SeriesAreInstruments(s, names, s.ids);
    ObservationsAreRows(s, names, s.ids);
    StorableFits(day);
    var (index, reg) := Open(bytes, FRESH).value;
    forall j | 0 <= j < |s.ids| ensures Recovered(s, names, bytes, index, reg, j) {
      assert Restored(day, bytes, index, FRESH, reg, j);
    }
    forall i, j | 0 <= i < |s.ids| && 0 <= j < |s.ids| && SameInstrument(s, names, i, j) ensures i == j {
      NoTwins(day.series, i, j);
    }
  }

  ghost predicate SameInstrument(s: Session, names: seq<Name>, i: nat, j: nat)
    requires Listed(s, names, s.ids) && i < |s.ids| && j < |s.ids|
  {
    SameContract(ContractOf(s.registry[s.ids[i]], names), ContractOf(s.registry[s.ids[j]], names))
  }

  lemma NoTwins(series: seq<Series>, i: nat, j: nat)
    requires DistinctContracts(series) && i < |series| && j < |series| && SameContract(series[i].contract, series[j].contract)
    ensures i == j
  {
    assert IdentityOf(series[i].contract) == IdentityOf(series[j].contract);
  }

  /** Opens the image with a fresh registry and compares everything with the session it came from.  For a
      storable session it never complains. */
  method ReadBack(s: Session, names: seq<Name>, bytes: seq<Byte>, crcs: array<bv32>) returns (ok: bool)
    requires Sorted(s) && Listed(s, names, s.ids) && IsTable(crcs[..])
    requires s.timeline != [] ==> IsTimeline(s, s.timeline)
    requires Storable(DayOf(s, names)) && bytes == Image(DayOf(s, names))
    ensures ok
  {
    hide Storable, Image, Open, Materialise, RowsFit, Timeline, IsTable, Sorted, SeriesOf;
    OpenRecovers(s, names, bytes);
    TimelineIs(s, s.timeline);
    var registry := new InstrumentRegistry();
    var session := OpenFile(bytes, registry, crcs);
    if session == null { return false; }
    if session.index.date != s.date || session.index.total != Observations(s, s.ids) { return false; }
    if |session.index.ids| != |s.ids| { return false; }
    if s.timeline != [] && session.index.timeline != s.timeline { return false; }
    ghost var reg := registry.Contents();
    for k := 0 to |s.ids|
      invariant session.Valid() && registry.Contents() == reg
    {
      assert Recovered(s, names, bytes, session.index, reg, k);
      var id := session.index.ids[k];
      var spec := registry.specs[id];
      var written := Contract(registry.underlyings[spec.underlying], spec.kind, spec.right, spec.expiry, spec.strike, spec.lot, spec.tick);
      assert written == ContractIn(reg, id);
      var original := Locate(s, names, written);
      if original.None? { return false; }
      assert SameInstrument(s, names, original.value, k);
      var rows := session.Quotes(id);
      if rows != Some(Quotes(s, s.ids[original.value])) { return false; }
    }
    return true;
  }
}
