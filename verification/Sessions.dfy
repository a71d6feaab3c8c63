/** One session of observations: per-instrument columns in time order, as-of lookup, and truncation. */
module Sessions {
  import opened Types

  /** Located observation; `row` indexes the instrument's columns. */
  datatype Event = Event(ts: int, instrument: int, row: nat)

  /** `order` and `timeline` are the optional caches a source may keep; empty means it keeps none. */
  datatype Session = Session(date: int, registry: seq<InstrumentSpec>, ids: seq<int>, columns: map<int, seq<Quote>>,
                             order: seq<Event>, timeline: seq<int>)

  function Quotes(s: Session, id: int): seq<Quote> {
    if id in s.columns then s.columns[id] else []
  }

  ghost predicate TimeSorted(cols: seq<Quote>) {
    forall i, j :: 0 <= i <= j < |cols| ==> cols[i].ts <= cols[j].ts
  }

  /** How many rows a sorted column has at or before `t`. */
  function CountUpto(cols: seq<Quote>, t: int): (n: nat)
    ensures n <= |cols|
    ensures n > 0 ==> cols[n - 1].ts <= t
    ensures n < |cols| ==> cols[n].ts > t
  {
    if cols == [] then 0
    else if cols[|cols| - 1].ts <= t then |cols|
    else CountUpto(cols[..|cols| - 1], t)
  }

  function IndexAtOrBefore(cols: seq<Quote>, t: int): Option<nat> {
    var n := CountUpto(cols, t);
    if n == 0 then None else Some(n - 1)
  }

  lemma SortedPair(cols: seq<Quote>, i: int, j: int)
    requires TimeSorted(cols)
    ensures 0 <= i <= j < |cols| ==> cols[i].ts <= cols[j].ts
  {
  }

  /** The count is the one place that separates what has happened from what has not. */
  lemma CountUptoUnique(cols: seq<Quote>, t: int, n: nat)
    requires TimeSorted(cols) && n <= |cols|
    requires (n > 0 ==> cols[n - 1].ts <= t) && (n < |cols| ==> cols[n].ts > t)
    ensures n == CountUpto(cols, t)
  {
    var k := CountUpto(cols, t);
    SortedPair(cols, n, k as int - 1);
    SortedPair(cols, k, n as int - 1);
  }

  /** The binary search behind `index_at_or_before`. */
  method FindAtOrBefore(cols: seq<Quote>, t: int) returns (r: Option<nat>)
    requires TimeSorted(cols)
    ensures r == IndexAtOrBefore(cols, t)
    ensures r.None? ==> forall i :: 0 <= i < |cols| ==> cols[i].ts > t
    ensures r.Some? ==> r.value < |cols| && forall i :: 0 <= i < |cols| ==> (cols[i].ts <= t <==> i <= r.value)
  {
    var lo, hi := 0, |cols|;
    while lo < hi
      invariant 0 <= lo <= hi <= |cols|
      invariant forall i :: 0 <= i < lo ==> cols[i].ts <= t
      invariant forall i :: hi <= i < |cols| ==> cols[i].ts > t
    {
      var mid := lo + (hi - lo) / 2;
      if cols[mid].ts <= t { lo := mid + 1; } else { hi := mid; }
    }
    CountUptoUnique(cols, t, lo);
    r := if lo == 0 then None else Some(lo - 1);
  }

  method RowsUpto(cols: seq<Quote>, t: int) returns (n: nat)
    requires TimeSorted(cols)
    ensures n == CountUpto(cols, t)
  {
    var idx := FindAtOrBefore(cols, t);
    n := if idx.None? then 0 else idx.value + 1;
  }

  /** Rows that had happened by `t`. */
  function Upto(cols: seq<Quote>, t: int): (r: seq<Quote>)
    ensures r <= cols
  {
    cols[..CountUpto(cols, t)]
  }

  lemma UptoMeaning(cols: seq<Quote>, t: int)
    requires TimeSorted(cols)
    ensures TimeSorted(Upto(cols, t))
    ensures forall q :: q in Upto(cols, t) <==> q in cols && q.ts <= t
  {
    var n := CountUpto(cols, t);
    forall i | 0 <= i < |cols| ensures cols[i].ts <= t <==> i < n {
      if i < n { assert cols[i].ts <= cols[n - 1].ts; } else { assert cols[n].ts <= cols[i].ts; }
    }
    forall q | q in cols && q.ts <= t ensures q in Upto(cols, t) {
      var i :| 0 <= i < |cols| && cols[i] == q;
      assert Upto(cols, t)[i] == q;
    }
  }

  /** Looking back from `now` sees the same rows whether or not the column was cut later than `now`. */
  lemma UptoUpto(cols: seq<Quote>, now: int, cutoff: int)
    requires TimeSorted(cols) && now <= cutoff
    ensures CountUpto(Upto(cols, cutoff), now) == CountUpto(cols, now)
    ensures Upto(Upto(cols, cutoff), now) == Upto(cols, now)
  {
    hide CountUpto;
    var n, m := CountUpto(cols, now), CountUpto(cols, cutoff);
    assert n <= m by { SortedPair(cols, m, n as int - 1); }
    CountUptoUnique(cols[..m], now, n);
    assert cols[..m][..n] == cols[..n];
  }

  // ----- well-formed sessions -----------------------------------------------------------------

  ghost predicate Distinct(ids: seq<int>) {
    forall i, j :: 0 <= i < j < |ids| ==> ids[i] != ids[j]
  }

  /** What every source promises: sorted, non-empty columns for exactly the listed instruments. */
  ghost predicate Sorted(s: Session) {
    && Distinct(s.ids) && (forall id :: id in s.ids <==> id in s.columns)
    && (forall id :: id in s.columns ==> s.columns[id] != [] && TimeSorted(s.columns[id]))
  }

  /** Some instrument prints at `t`. */
  ghost predicate Prints(s: Session, t: int) {
    exists id :: PrintsAt(s, id, t)
  }

  ghost predicate PrintsAt(s: Session, id: int, t: int) {
    id in s.columns && exists r :: 0 <= r < |s.columns[id]| && s.columns[id][r].ts == t
  }

  ghost predicate Ascending(ts: seq<int>) {
    forall i, j :: 0 <= i < j < |ts| ==> ts[i] < ts[j]
  }

  /** The strictly ascending sequence of the session's observation times. */
  ghost predicate IsTimeline(s: Session, ts: seq<int>) {
    Ascending(ts) && forall t :: t in ts <==> Prints(s, t)
  }

  /** What an ascending sequence holds besides its last element. */
  lemma WithoutLast(a: seq<int>, t: int)
    requires Ascending(a) && a != []
    ensures t in a[..|a| - 1] <==> t in a && t < a[|a| - 1]
  {
    var n := |a| - 1;
    if t in a[..n] {
      var i :| 0 <= i < n && a[..n][i] == t;
      assert a[i] == t;
    }
    if t in a && t < a[n] {
      var i :| 0 <= i < |a| && a[i] == t;
      assert a[..n][i] == t;
    }
  }

  lemma LastIsGreatest(a: seq<int>, t: int)
    requires Ascending(a) && a != [] && t in a
    ensures t <= a[|a| - 1] && a[|a| - 1] in a
  {
  }

  lemma {:induction false} AscendingUnique(a: seq<int>, b: seq<int>)
    requires Ascending(a) && Ascending(b) && forall t :: t in a <==> t in b
    ensures a == b
  {
    assert (a != [] ==> a[0] in a) && (b != [] ==> b[0] in b);
    if a != [] && b != [] {
      var n, m := |a| - 1, |b| - 1;
      LastIsGreatest(a, b[m]);
      LastIsGreatest(b, a[n]);
      forall t ensures t in a[..n] <==> t in b[..m] {
        WithoutLast(a, t);
        WithoutLast(b, t);
      }
      AscendingUnique(a[..n], b[..m]);
      assert a == a[..n] + [a[n]] && b == b[..m] + [b[m]];
    }
  }

  /** Ascending insertion without duplicates. */
  function InsertAscending(ts: seq<int>, t: int): (r: seq<int>)
    ensures forall x :: x in r <==> x in ts || x == t
  {
    if ts == [] || ts[|ts| - 1] < t then ts + [t]
    else if ts[|ts| - 1] == t then ts
    else
      assert ts == ts[..|ts| - 1] + [ts[|ts| - 1]];
      InsertAscending(ts[..|ts| - 1], t) + [ts[|ts| - 1]]
  }

  lemma {:induction false} InsertAscends(ts: seq<int>, t: int)
    requires Ascending(ts)
    ensures Ascending(InsertAscending(ts, t))
  {
    if ts != [] && ts[|ts| - 1] > t {
      var n := |ts| - 1;
      InsertAscends(ts[..n], t);
      var r := InsertAscending(ts[..n], t);
      forall i | 0 <= i < |r| ensures r[i] < ts[n] {
        assert r[i] in r;
        if r[i] in ts[..n] { var j :| 0 <= j < n && ts[j] == r[i]; }
      }
    }
  }

  function ColumnTimes(ts: seq<int>, cols: seq<Quote>): seq<int> {
    if cols == [] then ts else InsertAscending(ColumnTimes(ts, cols[..|cols| - 1]), cols[|cols| - 1].ts)
  }

  function TimesOfIds(s: Session, ids: seq<int>): seq<int> {
    if ids == [] then [] else ColumnTimes(TimesOfIds(s, ids[..|ids| - 1]), Quotes(s, ids[|ids| - 1]))
  }

  /** The session's observation times. */
  function Timeline(s: Session): seq<int> {
    TimesOfIds(s, s.ids)
  }

  ghost predicate ColumnPrints(cols: seq<Quote>, t: int) {
    exists r :: 0 <= r < |cols| && cols[r].ts == t
  }

  lemma {:induction false} ColumnTimesMeaning(ts: seq<int>, cols: seq<Quote>)
    requires Ascending(ts)
    ensures Ascending(ColumnTimes(ts, cols))
    ensures forall t :: t in ColumnTimes(ts, cols) <==> t in ts || ColumnPrints(cols, t)
  {
    if cols != [] {
      var n := |cols| - 1;
      ColumnTimesMeaning(ts, cols[..n]);
      InsertAscends(ColumnTimes(ts, cols[..n]), cols[n].ts);
      forall t ensures ColumnPrints(cols, t) <==> ColumnPrints(cols[..n], t) || t == cols[n].ts {
        if ColumnPrints(cols[..n], t) {
          var r :| 0 <= r < n && cols[..n][r].ts == t;
          assert cols[r].ts == t;
        }
        if r :| 0 <= r < |cols| && cols[r].ts == t && r < n { assert cols[..n][r].ts == t; }
      }
    }
  }

  lemma {:induction false} TimesOfIdsMeaning(s: Session, ids: seq<int>)
    ensures Ascending(TimesOfIds(s, ids))
    ensures forall t :: t in TimesOfIds(s, ids) <==> exists id :: id in ids && ColumnPrints(Quotes(s, id), t)
  {
    if ids != [] {
      var n := |ids| - 1;
      TimesOfIdsMeaning(s, ids[..n]);
      ColumnTimesMeaning(TimesOfIds(s, ids[..n]), Quotes(s, ids[n]));
      assert ids == ids[..n] + [ids[n]];
    }
  }

  /** It is the one strictly ascending sequence of them. */
  lemma TimelineIs(s: Session, ts: seq<int>)
    requires Sorted(s)
    ensures IsTimeline(s, Timeline(s))
    ensures IsTimeline(s, ts) ==> ts == Timeline(s)
  {
    TimesOfIdsMeaning(s, s.ids);
    forall t ensures Prints(s, t) <==> exists id :: id in s.ids && ColumnPrints(Quotes(s, id), t) {
      if Prints(s, t) {
        var id :| PrintsAt(s, id, t);
        assert id in s.ids && ColumnPrints(Quotes(s, id), t);
      }
      if id :| id in s.ids && ColumnPrints(Quotes(s, id), t) {
        assert PrintsAt(s, id, t);
      }
    }
    if IsTimeline(s, ts) {
      AscendingUnique(ts, Timeline(s));
    }
  }

  // ----- truncation ---------------------------------------------------------------------------

  function KeptIds(s: Session, ids: seq<int>, cutoff: int): (r: seq<int>)
    ensures forall id :: id in r <==> id in ids && CountUpto(Quotes(s, id), cutoff) > 0
  {
    if ids == [] then []
    else
      var id := ids[|ids| - 1];
      KeptIds(s, ids[..|ids| - 1], cutoff) + if CountUpto(Quotes(s, id), cutoff) > 0 then [id] else []
  }

  /** The session clipped to observations at or before a cutoff; it keeps no caches. */
  function Truncate(s: Session, cutoff: int): Session {
    Session(s.date, s.registry, KeptIds(s, s.ids, cutoff),
            map id | id in s.columns && CountUpto(s.columns[id], cutoff) > 0 :: Upto(s.columns[id], cutoff), [], [])
  }

  /** Rows kept of each instrument that keeps any. */
  function KeptCounts(s: Session, ids: seq<int>, cutoff: int): map<int, nat> {
    if ids == [] then map[]
    else
      var id := ids[|ids| - 1];
      var n := CountUpto(Quotes(s, id), cutoff);
      if n > 0 then KeptCounts(s, ids[..|ids| - 1], cutoff)[id := n] else KeptCounts(s, ids[..|ids| - 1], cutoff)
  }

  function KeptRows(s: Session, ids: seq<int>, cutoff: int): nat {
    if ids == [] then 0 else KeptRows(s, ids[..|ids| - 1], cutoff) + CountUpto(Quotes(s, ids[|ids| - 1]), cutoff)
  }

  /** The constructor loop of the clipped view: which instruments it keeps, and how many rows of each. */
  method ClipSession(s: Session, cutoff: int) returns (kept: seq<int>, counts: map<int, nat>, total: nat)
    requires Sorted(s)
    ensures kept == Truncate(s, cutoff).ids
    ensures counts == KeptCounts(s, s.ids, cutoff)
    ensures total == KeptRows(s, s.ids, cutoff)
  {
    hide Sorted, TimeSorted, Quotes, CountUpto, Upto, KeptIds, KeptCounts, KeptRows;
    kept, counts, total := [], map[], 0;
    NothingClipped(s, cutoff);
    for k := 0 to |s.ids|
      invariant Clipped(s, s.ids[..k], cutoff, kept, counts, total)
    {
      var id := s.ids[k];
      SortedColumn(s, id);
      var n := RowsUpto(Quotes(s, id), cutoff);
      ClippedNext(s, s.ids[..k], id, cutoff, kept, counts, total);
      assert s.ids[..k + 1] == s.ids[..k] + [id];
      if n > 0 {
        counts := counts[id := n];
        kept := kept + [id];
        total := total + n;
      }
    }
    assert s.ids[..|s.ids|] == s.ids;
  }

  lemma SortedColumn(s: Session, id: int)
    requires Sorted(s)
    ensures TimeSorted(Quotes(s, id))
  {
  }

  ghost predicate Clipped(s: Session, ids: seq<int>, cutoff: int, kept: seq<int>, counts: map<int, nat>, total: nat) {
    kept == KeptIds(s, ids, cutoff) && counts == KeptCounts(s, ids, cutoff) && total == KeptRows(s, ids, cutoff)
  }

  lemma NothingClipped(s: Session, cutoff: int)
    ensures Clipped(s, s.ids[..0], cutoff, [], map[], 0)
  {
  }

  lemma ClippedNext(s: Session, ids: seq<int>, id: int, cutoff: int, kept: seq<int>, counts: map<int, nat>, total: nat)
    requires Clipped(s, ids, cutoff, kept, counts, total)
    ensures var n := CountUpto(Quotes(s, id), cutoff);
            if n > 0 then Clipped(s, ids + [id], cutoff, kept + [id], counts[id := n], total + n)
            else Clipped(s, ids + [id], cutoff, kept, counts, total)
  {
    hide Quotes, CountUpto, KeptIds, KeptCounts, KeptRows;
    KeptIdsNext(s, ids, id, cutoff);
    KeptCountsNext(s, ids, id, cutoff);
    KeptRowsNext(s, ids, id, cutoff);
  }

  lemma KeptIdsNext(s: Session, ids: seq<int>, id: int, cutoff: int)
    ensures KeptIds(s, ids + [id], cutoff) == KeptIds(s, ids, cutoff) + if CountUpto(Quotes(s, id), cutoff) > 0 then [id] else []
  {
    hide Quotes, CountUpto;
    assert (ids + [id])[..|ids|] == ids;
  }

  lemma KeptCountsNext(s: Session, ids: seq<int>, id: int, cutoff: int)
    ensures var n := CountUpto(Quotes(s, id), cutoff);
            KeptCounts(s, ids + [id], cutoff) == if n > 0 then KeptCounts(s, ids, cutoff)[id := n] else KeptCounts(s, ids, cutoff)
  {
    hide Quotes, CountUpto;
    assert (ids + [id])[..|ids|] == ids;
  }

  lemma KeptRowsNext(s: Session, ids: seq<int>, id: int, cutoff: int)
    ensures KeptRows(s, ids + [id], cutoff) == KeptRows(s, ids, cutoff) + CountUpto(Quotes(s, id), cutoff)
  {
    hide Quotes, CountUpto;
    assert (ids + [id])[..|ids|] == ids;
  }

  lemma {:induction false} KeptCountsMeaning(s: Session, ids: seq<int>, cutoff: int)
    ensures forall id :: id in KeptCounts(s, ids, cutoff) <==> id in ids && CountUpto(Quotes(s, id), cutoff) > 0
    ensures forall id :: id in KeptCounts(s, ids, cutoff) ==> KeptCounts(s, ids, cutoff)[id] == CountUpto(Quotes(s, id), cutoff)
  {
    if ids != [] {
      KeptCountsMeaning(s, ids[..|ids| - 1], cutoff);
    }
  }

  /** The clipped view serves, for each instrument, the first `counts[id]` rows of the full column, which
      are exactly the rows that had happened by the cutoff. */
  lemma ClipIsTruncate(s: Session, cutoff: int)
    requires Sorted(s)
    ensures var counts := KeptCounts(s, s.ids, cutoff);
            && counts.Keys == Truncate(s, cutoff).columns.Keys
            && forall id :: id in counts ==>
                 counts[id] <= |s.columns[id]| && Truncate(s, cutoff).columns[id] == s.columns[id][..counts[id]]
    ensures forall id :: id in s.columns ==>
              forall q :: q in Quotes(Truncate(s, cutoff), id) <==> q in s.columns[id] && q.ts <= cutoff
  {
    KeptCountsMeaning(s, s.ids, cutoff);
    TruncateSorted(s, cutoff);
    var counts := KeptCounts(s, s.ids, cutoff);
    assert forall id :: id in counts.Keys <==> id in Truncate(s, cutoff).columns.Keys;
    forall id | id in s.columns
      ensures forall q :: q in Quotes(Truncate(s, cutoff), id) <==> q in s.columns[id] && q.ts <= cutoff
    {
      UptoMeaning(s.columns[id], cutoff);
    }
  }

  lemma {:induction false} KeptIdsDistinct(s: Session, ids: seq<int>, cutoff: int)
    requires Distinct(ids)
    ensures Distinct(KeptIds(s, ids, cutoff))
  {
    if ids != [] {
      var n := |ids| - 1;
      KeptIdsDistinct(s, ids[..n], cutoff);
      assert forall i :: 0 <= i < n ==> ids[i] != ids[n];
    }
  }

  lemma TruncateSorted(s: Session, cutoff: int)
    requires Sorted(s)
    ensures Sorted(Truncate(s, cutoff))
    ensures forall id :: Quotes(Truncate(s, cutoff), id) == Upto(Quotes(s, id), cutoff)
  {
    KeptIdsDistinct(s, s.ids, cutoff);
    forall id | id in s.columns ensures TimeSorted(Upto(s.columns[id], cutoff)) {
      UptoMeaning(s.columns[id], cutoff);
    }
  }

  lemma TruncatePrints(s: Session, cutoff: int, t: int)
    requires Sorted(s)
    ensures Prints(Truncate(s, cutoff), t) <==> Prints(s, t) && t <= cutoff
  {
    var c := Truncate(s, cutoff);
    forall id ensures PrintsAt(c, id, t) <==> PrintsAt(s, id, t) && t <= cutoff {
      if id in s.columns {
        UptoMeaning(s.columns[id], cutoff);
        if PrintsAt(s, id, t) && t <= cutoff {
          var r :| 0 <= r < |s.columns[id]| && s.columns[id][r].ts == t;
          var q := s.columns[id][r];
          assert q in Upto(s.columns[id], cutoff);
          var r' :| 0 <= r' < |Upto(s.columns[id], cutoff)| && Upto(s.columns[id], cutoff)[r'] == q;
        }
        if PrintsAt(c, id, t) {
          var r :| 0 <= r < |c.columns[id]| && c.columns[id][r].ts == t;
          assert c.columns[id][r] in Upto(s.columns[id], cutoff);
          assert s.columns[id][r].ts == t;
        }
      }
    }
    if Prints(s, t) && t <= cutoff {
      var id :| PrintsAt(s, id, t);
      assert PrintsAt(c, id, t);
    }
    if Prints(c, t) {
      var id :| PrintsAt(c, id, t);
      assert PrintsAt(s, id, t);
    }
  }

  function CountTimes(ts: seq<int>, cutoff: int): (n: nat)
    ensures n <= |ts|
  {
    if ts == [] then 0
    else if ts[|ts| - 1] <= cutoff then |ts|
    else CountTimes(ts[..|ts| - 1], cutoff)
  }

  lemma {:induction false} CountTimesSplits(ts: seq<int>, cutoff: int)
    requires Ascending(ts)
    ensures forall i :: 0 <= i < |ts| ==> (ts[i] <= cutoff <==> i < CountTimes(ts, cutoff))
  {
    if ts != [] {
      CountTimesSplits(ts[..|ts| - 1], cutoff);
    }
  }

  lemma ClippedSteps(s: Session, cutoff: int, full: seq<int>, clipped: seq<int>)
    requires Sorted(s) && IsTimeline(s, full) && IsTimeline(Truncate(s, cutoff), clipped)
    ensures clipped == full[..CountTimes(full, cutoff)]
  {
    hide Sorted, Truncate, Prints, CountTimes;
    var n := CountTimes(full, cutoff);
    forall t ensures t in clipped <==> t in full[..n] {
      TruncatePrints(s, cutoff, t);
      FirstTimes(full, cutoff, t);
    }
    AscendingUnique(clipped, full[..n]);
  }

  lemma FirstTimes(full: seq<int>, cutoff: int, t: int)
    requires Ascending(full)
    ensures t in full[..CountTimes(full, cutoff)] <==> t in full && t <= cutoff
  {
    hide CountTimes;
    CountTimesSplits(full, cutoff);
    var n := CountTimes(full, cutoff);
    if t in full && t <= cutoff {
      var i :| 0 <= i < |full| && full[i] == t;
      assert full[..n][i] == t;
    }
  }

  /** The steps of the clipped session are the full session's steps up to the cutoff, in order. */
  lemma TimelinePrefix(s: Session, cutoff: int)
    requires Sorted(s)
    ensures Timeline(Truncate(s, cutoff)) == Timeline(s)[..CountTimes(Timeline(s), cutoff)]
  {
    hide *;
    TruncateSorted(s, cutoff);
    TimelineIs(s, []);
    TimelineIs(Truncate(s, cutoff), []);
    ClippedSteps(s, cutoff, Timeline(s), Timeline(Truncate(s, cutoff)));
  }

  // ----- the as-of view -----------------------------------------------------------------------

  /** What is visible at `now`: the most recent observation of every instrument that has printed. */
  function AsOf(s: Session, now: int): Market {
    Market(now, s.registry, map id | id in s.columns && CountUpto(s.columns[id], now) > 0
                              :: s.columns[id][CountUpto(s.columns[id], now) - 1])
  }

  function LatestIn(cols: seq<Quote>, now: int): Option<Quote> {
    var n := CountUpto(cols, now);
    if n == 0 then None else Some(cols[n - 1])
  }

  lemma LatestTruncated(cols: seq<Quote>, now: int, cutoff: int)
    requires TimeSorted(cols) && now <= cutoff
    ensures LatestIn(Upto(cols, cutoff), now) == LatestIn(cols, now)
    ensures CountUpto(cols, cutoff) == 0 ==> LatestIn(cols, now).None?
  {
    UptoUpto(cols, now, cutoff);
  }

  lemma AsOfLatest(s: Session, now: int, id: int)
    ensures AsOf(s, now).Latest(id) == LatestIn(Quotes(s, id), now)
  {
  }

  lemma AsOfTruncated(s: Session, now: int, cutoff: int)
    requires Sorted(s) && now <= cutoff
    ensures AsOf(Truncate(s, cutoff), now) == AsOf(s, now)
  {
    hide AsOf, LatestIn, Upto, CountUpto, Truncate, TimeSorted, Quotes;
    TruncateSorted(s, cutoff);
    forall id ensures AsOf(Truncate(s, cutoff), now).Latest(id) == AsOf(s, now).Latest(id) {
      AsOfLatest(s, now, id);
      AsOfLatest(Truncate(s, cutoff), now, id);
      SortedColumn(s, id);
      LatestTruncated(Quotes(s, id), now, cutoff);
    }
    SameMarkets(s, cutoff, now);
  }

  lemma SameMarkets(s: Session, cutoff: int, now: int)
    requires forall id :: AsOf(Truncate(s, cutoff), now).Latest(id) == AsOf(s, now).Latest(id)
    ensures AsOf(Truncate(s, cutoff), now) == AsOf(s, now)
  {
    var a, b := AsOf(Truncate(s, cutoff), now), AsOf(s, now);
    assert a.latest == b.latest by {
      forall id ensures id in a.latest <==> id in b.latest
        ensures id in a.latest ==> a.latest[id] == b.latest[id]
      {
        assert a.Latest(id) == b.Latest(id);
      }
    }
  }
}
