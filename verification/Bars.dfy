/** Resampled bars: built from whole columns, readable only once closed. */
module Bars {
  import opened Types
  import opened Sessions

  datatype BarPrice = LastPrice | MidPrice

  datatype Bar = Bar(openTime: int, closeTime: int, open: int, high: int, low: int, close: int,
                     volume: int, observations: nat)

  /** Interval length, session anchor, price field, and the end of the session (0: unchecked). */
  datatype Grid = Grid(interval: int, anchor: int, source: BarPrice, validUntil: int)

  function PriceOf(g: Grid, q: Quote): int {
    if g.source == MidPrice && q.TwoSided() then q.Mid() else q.last
  }

  predicate Usable(g: Grid, q: Quote) {
    PriceOf(g, q) > 0
  }

  function BucketOf(g: Grid, t: int): int
    requires g.interval > 0
  {
    var delta := t - g.anchor;
    if delta >= 0 then delta / g.interval else -((-delta + g.interval - 1) / g.interval)
  }

  function BucketStart(g: Grid, b: int): int {
    g.anchor + b * g.interval
  }

  /** The bucket is the floor of the offset from the anchor, on either side of it. */
  lemma BucketHolds(g: Grid, t: int)
    requires g.interval > 0
    ensures BucketStart(g, BucketOf(g, t)) <= t < BucketStart(g, BucketOf(g, t)) + g.interval
  {
    var delta := t - g.anchor;
    if delta >= 0 {
      assert delta == delta / g.interval * g.interval + delta % g.interval;
    } else {
      var n := -delta + g.interval - 1;
      assert n == n / g.interval * g.interval + n % g.interval;
      assert -(n / g.interval) * g.interval == -(n / g.interval * g.interval);
    }
  }

  lemma ProductNonNegative(x: int, y: int)
    requires x >= 0 && y >= 0
    ensures x * y >= 0
  {
  }

  lemma MultiplesApart(a: int, b: int, n: int)
    requires n > 0 && a < b
    ensures a * n + n <= b * n
  {
    ProductNonNegative(b - a - 1, n);
    assert (b - a - 1) * n == b * n - a * n - n;
  }

  lemma BucketGrid(g: Grid, a: int, b: int)
    requires g.interval > 0
    ensures a < b ==> BucketStart(g, a) + g.interval <= BucketStart(g, b)
    ensures BucketStart(g, a) == BucketStart(g, b) ==> a == b
  {
    if a < b {
      MultiplesApart(a, b, g.interval);
    } else if b < a {
      MultiplesApart(b, a, g.interval);
    }
  }

  function NewBar(g: Grid, b: int, q: Quote): Bar {
    var px := PriceOf(g, q);
    Bar(BucketStart(g, b), BucketStart(g, b) + g.interval, px, px, px, px, q.lastQty, 1)
  }

  function Extended(g: Grid, bar: Bar, q: Quote): Bar {
    var px := PriceOf(g, q);
    bar.(high := Max(bar.high, px), low := Min(bar.low, px), close := px,
         volume := bar.volume + q.lastQty, observations := bar.observations + 1)
  }

  /** The bars of a column, one row at a time. */
  function BarsOf(g: Grid, cols: seq<Quote>): seq<Bar>
    requires g.interval > 0
  {
    if cols == [] then []
    else AddRow(g, BarsOf(g, cols[..|cols| - 1]), cols[|cols| - 1])
  }

  function AddRow(g: Grid, bars: seq<Bar>, q: Quote): seq<Bar>
    requires g.interval > 0
  {
    if !Usable(g, q) then bars
    else
      var b := BucketOf(g, q.ts);
      if bars == [] || bars[|bars| - 1].openTime != BucketStart(g, b) then bars + [NewBar(g, b, q)]
      else bars[|bars| - 1 := Extended(g, bars[|bars| - 1], q)]
  }

  /** The source's single pass, which remembers the current bucket index. */
  method Build(g: Grid, cols: seq<Quote>) returns (bars: seq<Bar>)
    requires g.interval > 0
    ensures bars == BarsOf(g, cols)
  {
    bars := [];
    var current, openBar := 0, false;
    var i := 0;
    while i < |cols|
      invariant 0 <= i <= |cols| && bars == BarsOf(g, cols[..i])
      invariant openBar <==> bars != []
      invariant openBar ==> bars[|bars| - 1].openTime == BucketStart(g, current)
    {
      assert cols[..i + 1][..i] == cols[..i];
      var q := cols[i];
      var px := PriceOf(g, q);
      if px > 0 {
        var b := BucketOf(g, q.ts);
        BucketGrid(g, b, current);
        if !openBar || b != current {
          bars := bars + [NewBar(g, b, q)];
          current, openBar := b, true;
        } else {
          var bar := bars[|bars| - 1];
          bar := bar.(high := Max(bar.high, px));
          bar := bar.(low := Min(bar.low, px));
          bar := bar.(close := px, volume := bar.volume + q.lastQty, observations := bar.observations + 1);
          bars := bars[|bars| - 1 := bar];
        }
      }
      i := i + 1;
    }
    assert cols[..i] == cols;
  }

  // ----- what a bar is ------------------------------------------------------------------------

  /** The usable rows of one bucket. */
  function RowsIn(g: Grid, cols: seq<Quote>, openTime: int): seq<Quote> {
    if cols == [] then []
    else
      var q := cols[|cols| - 1];
      RowsIn(g, cols[..|cols| - 1], openTime)
      + if Usable(g, q) && openTime <= q.ts < openTime + g.interval then [q] else []
  }

  function Volume(rows: seq<Quote>): int {
    if rows == [] then 0 else Volume(rows[..|rows| - 1]) + rows[|rows| - 1].lastQty
  }

  /** First, highest, lowest and last price, total volume and count of the rows. */
  ghost predicate Summarises(g: Grid, bar: Bar, rows: seq<Quote>) {
    && rows != [] && bar.observations == |rows| && bar.volume == Volume(rows)
    && bar.open == PriceOf(g, rows[0]) && bar.close == PriceOf(g, rows[|rows| - 1])
    && (forall i :: 0 <= i < |rows| ==> bar.low <= PriceOf(g, rows[i]) <= bar.high)
    && (exists i :: 0 <= i < |rows| && PriceOf(g, rows[i]) == bar.low)
    && (exists i :: 0 <= i < |rows| && PriceOf(g, rows[i]) == bar.high)
  }

  ghost predicate OnGrid(g: Grid, bar: Bar) {
    bar.closeTime == bar.openTime + g.interval && exists b :: bar.openTime == BucketStart(g, b)
  }

  /** Bars stand on the grid and never overlap. */
  ghost predicate Laid(g: Grid, bars: seq<Bar>) {
    && (forall i :: 0 <= i < |bars| ==> OnGrid(g, bars[i]))
    && (forall i, j :: 0 <= i < j < |bars| ==> bars[i].closeTime <= bars[j].openTime)
  }

  lemma Apart(g: Grid, bar: Bar, b: int)
    requires g.interval > 0 && OnGrid(g, bar)
    ensures bar.openTime < BucketStart(g, b) ==> bar.closeTime <= BucketStart(g, b)
    ensures bar.openTime > BucketStart(g, b) ==> BucketStart(g, b) + g.interval <= bar.openTime
  {
    var a :| bar.openTime == BucketStart(g, a);
    BucketGrid(g, a, b);
    BucketGrid(g, b, a);
  }

  lemma SameBucket(g: Grid, bar: Bar, t: int)
    requires g.interval > 0 && OnGrid(g, bar)
    ensures BucketStart(g, BucketOf(g, t)) == bar.openTime <==> bar.openTime <= t < bar.closeTime
  {
    BucketHolds(g, t);
    Apart(g, bar, BucketOf(g, t));
  }

  lemma SummariseMore(g: Grid, bar: Bar, rows: seq<Quote>, q: Quote)
    requires Summarises(g, bar, rows)
    ensures Summarises(g, Extended(g, bar, q), rows + [q])
  {
    var all := rows + [q];
    assert all[..|all| - 1] == rows && all[|rows|] == q;
    var lo :| 0 <= lo < |rows| && PriceOf(g, rows[lo]) == bar.low;
    var hi :| 0 <= hi < |rows| && PriceOf(g, rows[hi]) == bar.high;
    assert all[lo] == rows[lo] && all[hi] == rows[hi];
  }

  lemma SummariseFirst(g: Grid, b: int, q: Quote)
    ensures Summarises(g, NewBar(g, b, q), [q])
  {
    assert [q][..0] == [] && [q][0] == q;
  }

  /** The row's bucket comes no earlier than the last bar's, and no row has passed it. */
  ghost predicate Behind(g: Grid, bars: seq<Bar>, t: int)
    requires g.interval > 0
  {
    bars != [] ==> bars[|bars| - 1].openTime <= BucketStart(g, BucketOf(g, t))
  }

  lemma BucketMonotone(g: Grid, s: int, t: int)
    requires g.interval > 0 && s <= t
    ensures BucketStart(g, BucketOf(g, s)) <= BucketStart(g, BucketOf(g, t))
  {
    BucketHolds(g, s);
    BucketHolds(g, t);
    BucketGrid(g, BucketOf(g, t), BucketOf(g, s));
    BucketGrid(g, BucketOf(g, s), BucketOf(g, t));
  }

  lemma AddRowLaid(g: Grid, bars: seq<Bar>, q: Quote)
    requires g.interval > 0 && Laid(g, bars) && Behind(g, bars, q.ts)
    ensures Laid(g, AddRow(g, bars, q))
    ensures Usable(g, q) ==> AddRow(g, bars, q) != [] && AddRow(g, bars, q)[|AddRow(g, bars, q)| - 1].openTime == BucketStart(g, BucketOf(g, q.ts))
  {
    if Usable(g, q) {
      var b := BucketOf(g, q.ts);
      var bars' := AddRow(g, bars, q);
      if |bars'| > |bars| && bars != [] {
        Apart(g, bars[|bars| - 1], b);
      }
    }
  }

  lemma {:induction false} BarsLaid(g: Grid, cols: seq<Quote>)
    requires g.interval > 0 && TimeSorted(cols)
    ensures Laid(g, BarsOf(g, cols))
    ensures forall t :: (cols == [] || cols[|cols| - 1].ts <= t) ==> Behind(g, BarsOf(g, cols), t)
  {
    if cols != [] {
      var n := |cols| - 1;
      BarsLaid(g, cols[..n]);
      var q := cols[n];
      AddRowLaid(g, BarsOf(g, cols[..n]), q);
      forall t | q.ts <= t ensures Behind(g, BarsOf(g, cols), t) {
        assert n > 0 ==> cols[..n][n - 1].ts <= t;
        BucketMonotone(g, q.ts, t);
      }
    }
  }

  /** Each bar summarises exactly the usable rows of its bucket, and every usable row is in a bar. */
  ghost predicate Exact(g: Grid, cols: seq<Quote>, bars: seq<Bar>) {
    && (forall i :: 0 <= i < |bars| ==> Summarises(g, bars[i], RowsIn(g, cols, bars[i].openTime)))
    && (forall k :: 0 <= k < |cols| && Usable(g, cols[k]) ==>
          exists i :: 0 <= i < |bars| && bars[i].openTime <= cols[k].ts < bars[i].closeTime)
  }

  lemma {:induction false} BarsExact(g: Grid, cols: seq<Quote>)
    requires g.interval > 0 && TimeSorted(cols)
    ensures Laid(g, BarsOf(g, cols)) && Exact(g, cols, BarsOf(g, cols))
  {
    BarsLaid(g, cols);
    if cols != [] {
      var before, q := cols[..|cols| - 1], cols[|cols| - 1];
      BarsExact(g, before);
      BarsLaid(g, before);
      assert before + [q] == cols;
      assert Behind(g, BarsOf(g, before), q.ts);
      hide Exact;
      if Usable(g, q) {
        RowJoins(g, before, BarsOf(g, before), q);
      } else {
        RowSkipped(g, before, BarsOf(g, before), q);
      }
    }
  }

  lemma RowElsewhere(g: Grid, before: seq<Quote>, q: Quote, openTime: int)
    requires !(Usable(g, q) && openTime <= q.ts < openTime + g.interval)
    ensures RowsIn(g, before + [q], openTime) == RowsIn(g, before, openTime)
  {
    assert (before + [q])[..|before|] == before;
  }

  lemma RowHere(g: Grid, before: seq<Quote>, q: Quote, openTime: int)
    requires Usable(g, q) && openTime <= q.ts < openTime + g.interval
    ensures RowsIn(g, before + [q], openTime) == RowsIn(g, before, openTime) + [q]
  {
    assert (before + [q])[..|before|] == before;
  }

  lemma RowPlaced(g: Grid, bars: seq<Bar>, q: Quote)
    requires g.interval > 0 && Usable(g, q) && Laid(g, bars) && Behind(g, bars, q.ts)
    ensures var bars' := AddRow(g, bars, q);
            bars' != [] && OnGrid(g, bars'[|bars'| - 1]) && bars'[|bars'| - 1].openTime <= q.ts < bars'[|bars'| - 1].closeTime
  {
    var bars' := AddRow(g, bars, q);
    AddRowLaid(g, bars, q);
    SameBucket(g, bars'[|bars'| - 1], q.ts);
  }

  lemma RowOpensBar(g: Grid, before: seq<Quote>, bars: seq<Bar>, q: Quote)
    requires g.interval > 0 && Usable(g, q) && Exact(g, before, bars)
    requires BucketStart(g, BucketOf(g, q.ts)) <= q.ts < BucketStart(g, BucketOf(g, q.ts)) + g.interval
    requires forall i :: 0 <= i < |bars| ==> bars[i].closeTime <= BucketStart(g, BucketOf(g, q.ts))
    ensures var b := BucketOf(g, q.ts);
            Summarises(g, NewBar(g, b, q), RowsIn(g, before + [q], BucketStart(g, b)))
  {
    var b := BucketOf(g, q.ts);
    RowHere(g, before, q, BucketStart(g, b));
    NothingYet(g, before, bars, BucketStart(g, b));
    SummariseFirst(g, b, q);
    assert [] + [q] == [q];
  }

  lemma RowExtendsBar(g: Grid, before: seq<Quote>, bar: Bar, q: Quote)
    requires Usable(g, q) && bar.openTime <= q.ts < bar.openTime + g.interval
    requires Summarises(g, bar, RowsIn(g, before, bar.openTime))
    ensures Summarises(g, Extended(g, bar, q), RowsIn(g, before + [q], bar.openTime))
  {
    RowHere(g, before, q, bar.openTime);
    SummariseMore(g, bar, RowsIn(g, before, bar.openTime), q);
  }

  lemma RowJoinsLast(g: Grid, before: seq<Quote>, bars: seq<Bar>, q: Quote)
    requires g.interval > 0 && Usable(g, q) && Laid(g, bars) && Behind(g, bars, q.ts) && Exact(g, before, bars)
    ensures var bars' := AddRow(g, bars, q);
            bars' != [] && Summarises(g, bars'[|bars'| - 1], RowsIn(g, before + [q], bars'[|bars'| - 1].openTime))
  {
    var bars', b := AddRow(g, bars, q), BucketOf(g, q.ts);
    BucketHolds(g, q.ts);
    hide Summarises, RowsIn, Extended;
    if bars != [] && bars[|bars| - 1].openTime == BucketStart(g, b) {
      RowExtendsBar(g, before, bars[|bars| - 1], q);
    } else {
      AddRowLaid(g, bars, q);
      assert bars' == bars + [NewBar(g, b, q)];
      forall i | 0 <= i < |bars| ensures bars[i].closeTime <= BucketStart(g, b) {
        assert bars'[i] == bars[i] && bars'[|bars|] == NewBar(g, b, q);
      }
      RowOpensBar(g, before, bars, q);
    }
  }

  lemma RowJoins(g: Grid, before: seq<Quote>, bars: seq<Bar>, q: Quote)
    requires g.interval > 0 && Usable(g, q) && Laid(g, bars) && Behind(g, bars, q.ts) && Exact(g, before, bars)
    ensures Exact(g, before + [q], AddRow(g, bars, q))
  {
    hide Summarises, RowsIn;
    var bars' := AddRow(g, bars, q);
    AddRowLaid(g, bars, q);
    RowPlaced(g, bars, q);
    RowJoinsLast(g, before, bars, q);
    var last := |bars'| - 1;
    forall i | 0 <= i < last ensures Summarises(g, bars'[i], RowsIn(g, before + [q], bars'[i].openTime)) {
      assert bars'[i] == bars[i] && OnGrid(g, bars'[i]) && bars'[i].closeTime <= bars'[last].openTime;
      RowElsewhere(g, before, q, bars'[i].openTime);
    }
    forall k | 0 <= k < |before + [q]| && Usable(g, (before + [q])[k])
      ensures exists i :: 0 <= i < |bars'| && bars'[i].openTime <= (before + [q])[k].ts < bars'[i].closeTime
    {
      if k < |before| {
        var i :| 0 <= i < |bars| && bars[i].openTime <= before[k].ts < bars[i].closeTime;
        assert bars'[i].openTime <= before[k].ts < bars'[i].closeTime;
      }
    }
  }

  lemma RowSkipped(g: Grid, before: seq<Quote>, bars: seq<Bar>, q: Quote)
    requires !Usable(g, q) && Exact(g, before, bars)
    ensures Exact(g, before + [q], bars)
  {
    forall i | 0 <= i < |bars| ensures Summarises(g, bars[i], RowsIn(g, before + [q], bars[i].openTime)) {
      RowElsewhere(g, before, q, bars[i].openTime);
    }
    assert forall k :: 0 <= k < |before| ==> (before + [q])[k] == before[k];
  }

  /** A bucket later than every bar has no usable row. */
  lemma {:induction false} NothingYet(g: Grid, cols: seq<Quote>, bars: seq<Bar>, openTime: int)
    requires forall k :: 0 <= k < |cols| && Usable(g, cols[k]) ==>
               exists i :: 0 <= i < |bars| && bars[i].openTime <= cols[k].ts < bars[i].closeTime
    requires forall i :: 0 <= i < |bars| ==> bars[i].closeTime <= openTime
    ensures RowsIn(g, cols, openTime) == []
  {
    if cols != [] {
      var n := |cols| - 1;
      forall k | 0 <= k < n && Usable(g, cols[..n][k])
        ensures exists i :: 0 <= i < |bars| && bars[i].openTime <= cols[..n][k].ts < bars[i].closeTime
      {
        assert cols[..n][k] == cols[k];
      }
      NothingYet(g, cols[..n], bars, openTime);
    }
  }

  // ----- gated access -------------------------------------------------------------------------

  /** How many bars have closed at or before `now`. */
  function KnownCount(bars: seq<Bar>, now: int): (k: nat)
    ensures k <= |bars|
  {
    if bars == [] then 0
    else if bars[|bars| - 1].closeTime <= now then |bars|
    else KnownCount(bars[..|bars| - 1], now)
  }

  lemma {:induction false} KnownCountMeaning(g: Grid, bars: seq<Bar>, now: int)
    requires g.interval > 0 && Laid(g, bars)
    ensures forall i :: 0 <= i < |bars| ==> (bars[i].closeTime <= now <==> i < KnownCount(bars, now))
  {
    if bars != [] {
      KnownCountMeaning(g, bars[..|bars| - 1], now);
    }
  }

  /** The binary search behind `known_count`. */
  method CountKnown(g: Grid, bars: seq<Bar>, now: int) returns (k: nat)
    requires g.interval > 0 && Laid(g, bars)
    ensures k == KnownCount(bars, now)
    ensures forall i :: 0 <= i < |bars| ==> (bars[i].closeTime <= now <==> i < k)
  {
    var lo, hi := 0, |bars|;
    KnownCountMeaning(g, bars, now);
    while lo < hi
      invariant 0 <= lo <= KnownCount(bars, now) <= hi <= |bars|
    {
      var mid := lo + (hi - lo) / 2;
      if now < bars[mid].closeTime { hi := mid; } else { lo := mid + 1; }
    }
    k := lo;
  }

  /** The most recently completed bar, stepped `back` bars earlier. */
  function Completed(bars: seq<Bar>, now: int, back: nat): Option<Bar> {
    var k := KnownCount(bars, now);
    if back >= k then None else Some(bars[k - 1 - back])
  }

  /** Rows from `openTime` on. */
  function UsableFrom(g: Grid, cols: seq<Quote>, openTime: int): seq<Quote> {
    if cols == [] then []
    else
      var q := cols[|cols| - 1];
      UsableFrom(g, cols[..|cols| - 1], openTime) + if Usable(g, q) && openTime <= q.ts then [q] else []
  }

  function Running(g: Grid, openTime: int, closeTime: int, rows: seq<Quote>): Option<Bar> {
    if rows == [] then None
    else
      var q := rows[|rows| - 1];
      match Running(g, openTime, closeTime, rows[..|rows| - 1])
      case None => Some(Bar(openTime, closeTime, PriceOf(g, q), PriceOf(g, q), PriceOf(g, q), PriceOf(g, q), q.lastQty, 1))
      case Some(bar) => Some(Extended(g, bar, q))
  }

  /** The bar now building, aggregated only from rows that have happened. */
  function Forming(g: Grid, bars: seq<Bar>, cols: seq<Quote>, now: int): Option<Bar> {
    var k := KnownCount(bars, now);
    if k >= |bars| || now < bars[k].openTime then None
    else Running(g, bars[k].openTime, bars[k].closeTime, UsableFrom(g, Upto(cols, now), bars[k].openTime))
  }

  lemma NothingRuns(g: Grid, openTime: int, closeTime: int)
    ensures Running(g, openTime, closeTime, UsableFrom(g, [], openTime)) == None
  {
  }

  /** One more row of the forming bar. */
  lemma RunningNext(g: Grid, openTime: int, closeTime: int, rows: seq<Quote>, i: nat)
    requires i < |rows|
    ensures var r, q, px := Running(g, openTime, closeTime, UsableFrom(g, rows[..i], openTime)), rows[i], PriceOf(g, rows[i]);
            Running(g, openTime, closeTime, UsableFrom(g, rows[..i + 1], openTime)) ==
              if px > 0 && openTime <= q.ts then
                (match r
                 case None => Some(Bar(openTime, closeTime, px, px, px, px, q.lastQty, 1))
                 case Some(bar) => Some(Extended(g, bar, q)))
              else r
  {
    assert rows[..i + 1][..i] == rows[..i];
    var seen := UsableFrom(g, rows[..i], openTime);
    assert (seen + [rows[i]])[..|seen|] == seen && seen + [] == seen;
  }

  /** The source's re-aggregation loop. */
  method Reaggregate(g: Grid, bars: seq<Bar>, cols: seq<Quote>, now: int) returns (r: Option<Bar>)
    requires g.interval > 0 && Laid(g, bars) && TimeSorted(cols)
    ensures r == Forming(g, bars, cols, now)
  {
    hide UsableFrom, Running, Laid, TimeSorted;
    var k := CountKnown(g, bars, now);
    if k >= |bars| { return None; }
    var stored := bars[k];
    if now < stored.openTime { return None; }
    NothingRuns(g, stored.openTime, stored.closeTime);
    var upto := FindAtOrBefore(cols, now);
    if upto.None? {
      assert Upto(cols, now) == [];
      return None;
    }
    ghost var rows := Upto(cols, now);
    r := None;
    var i := 0;
    while i <= upto.value
      invariant 0 <= i <= upto.value + 1 == |rows|
      invariant r == Running(g, stored.openTime, stored.closeTime, UsableFrom(g, rows[..i], stored.openTime))
    {
      RunningNext(g, stored.openTime, stored.closeTime, rows, i);
      var q := cols[i];
      var px := PriceOf(g, q);
      if q.ts >= stored.openTime && px > 0 {
        r := match r
          case None => Some(Bar(stored.openTime, stored.closeTime, px, px, px, px, q.lastQty, 1))
          case Some(bar) => Some(bar.(high := Max(bar.high, px), low := Min(bar.low, px), close := px,
                                      volume := bar.volume + q.lastQty, observations := bar.observations + 1));
      }
      i := i + 1;
    }
    assert rows[..i] == rows;
  }

  // ----- causality ----------------------------------------------------------------------------

  /** Two builds that agree on everything closed by `now`: the shorter one has the same buckets, equal
      bars where they have closed, and the longer one's extra bars have not. */
  ghost predicate AgreeUntil(short: seq<Bar>, long: seq<Bar>, now: int) {
    && |short| <= |long|
    && (forall i :: 0 <= i < |short| ==> long[i].openTime == short[i].openTime && long[i].closeTime == short[i].closeTime)
    && (forall i :: 0 <= i < |short| && short[i].closeTime <= now ==> long[i] == short[i])
    && (forall i :: |short| <= i < |long| ==> long[i].closeTime > now)
  }

  lemma AddRowAgrees(g: Grid, short: seq<Bar>, mid: seq<Bar>, q: Quote, now: int)
    requires g.interval > 0 && Laid(g, mid) && Behind(g, mid, q.ts) && AgreeUntil(short, mid, now) && q.ts > now
    ensures AgreeUntil(short, AddRow(g, mid, q), now)
  {
    if Usable(g, q) {
      var long := AddRow(g, mid, q);
      AddRowLaid(g, mid, q);
      SameBucket(g, long[|long| - 1], q.ts);
      assert long[|long| - 1].closeTime > now;
    }
  }

  lemma {:induction false} LaterRowsAgree(g: Grid, cols: seq<Quote>, n: nat, now: int)
    requires g.interval > 0 && TimeSorted(cols) && n <= |cols|
    requires forall i :: n <= i < |cols| ==> cols[i].ts > now
    ensures AgreeUntil(BarsOf(g, cols[..n]), BarsOf(g, cols), now)
  {
    if n == |cols| {
      assert cols[..n] == cols;
    } else {
      var m := |cols| - 1;
      var before := cols[..m];
      LaterRowsAgree(g, before, n, now);
      assert before[..n] == cols[..n];
      BarsLaid(g, before);
      hide AgreeUntil, Laid;
      AddRowAgrees(g, BarsOf(g, cols[..n]), BarsOf(g, before), cols[m], now);
    }
  }

  lemma AgreeKnown(g: Grid, short: seq<Bar>, long: seq<Bar>, now: int)
    requires g.interval > 0 && Laid(g, short) && Laid(g, long) && AgreeUntil(short, long, now)
    ensures KnownCount(short, now) == KnownCount(long, now)
  {
    KnownCountMeaning(g, short, now);
    KnownCountMeaning(g, long, now);
    var a, b := KnownCount(short, now), KnownCount(long, now);
    assert a < |short| ==> !(short[a].closeTime <= now);
    assert b < |long| ==> !(long[b].closeTime <= now);
  }

  lemma CutAgrees(g: Grid, cols: seq<Quote>, now: int, cutoff: int)
    requires g.interval > 0 && TimeSorted(cols) && now <= cutoff
    ensures var short, long := BarsOf(g, Upto(cols, cutoff)), BarsOf(g, cols);
            Laid(g, short) && Laid(g, long) && AgreeUntil(short, long, now) && KnownCount(short, now) == KnownCount(long, now)
  {
    var cut := Upto(cols, cutoff);
    UptoMeaning(cols, cutoff);
    var n := |cut|;
    forall i | n <= i < |cols| ensures cols[i].ts > now {
      SortedPair(cols, n, i);
    }
    LaterRowsAgree(g, cols, n, now);
    BarsLaid(g, cut);
    BarsLaid(g, cols);
    hide AgreeUntil, Laid;
    AgreeKnown(g, BarsOf(g, cut), BarsOf(g, cols), now);
  }

  lemma AgreeClosed(g: Grid, short: seq<Bar>, long: seq<Bar>, now: int)
    requires g.interval > 0 && Laid(g, short) && AgreeUntil(short, long, now) && KnownCount(short, now) == KnownCount(long, now)
    ensures forall i :: 0 <= i < KnownCount(long, now) ==> short[i] == long[i]
    ensures forall back: nat :: Completed(short, now, back) == Completed(long, now, back)
  {
    KnownCountMeaning(g, short, now);
  }

  /** Cutting the data at or after `now` changes no bar count, no completed bar and no forming bar. */
  lemma BarsCausal(g: Grid, cols: seq<Quote>, now: int, cutoff: int)
    requires g.interval > 0 && TimeSorted(cols) && now <= cutoff
    ensures var cut := Upto(cols, cutoff);
            && KnownCount(BarsOf(g, cut), now) == KnownCount(BarsOf(g, cols), now)
            && (forall i :: 0 <= i < KnownCount(BarsOf(g, cols), now) ==> BarsOf(g, cut)[i] == BarsOf(g, cols)[i])
            && (forall back: nat :: Completed(BarsOf(g, cut), now, back) == Completed(BarsOf(g, cols), now, back))
            && Forming(g, BarsOf(g, cut), cut, now) == Forming(g, BarsOf(g, cols), cols, now)
  {
    hide *;
    CutAgrees(g, cols, now, cutoff);
    AgreeClosed(g, BarsOf(g, Upto(cols, cutoff)), BarsOf(g, cols), now);
    FormingUnchanged(g, cols, now, cutoff);
  }

  lemma FormingCausal(g: Grid, cols: seq<Quote>, now: int, cutoff: int)
    requires g.interval > 0 && TimeSorted(cols) && now <= cutoff
    requires var short, long := BarsOf(g, Upto(cols, cutoff)), BarsOf(g, cols);
             Laid(g, short) && Laid(g, long) && AgreeUntil(short, long, now) && KnownCount(short, now) == KnownCount(long, now)
    ensures var cut := Upto(cols, cutoff); Forming(g, BarsOf(g, cut), cut, now) == Forming(g, BarsOf(g, cols), cols, now)
  {
    var cut := Upto(cols, cutoff);
    var short, long := BarsOf(g, cut), BarsOf(g, cols);
    var k := KnownCount(long, now);
    UptoUpto(cols, now, cutoff);
    if |short| <= k < |long| {
      UptoMeaning(cols, cutoff);
      BarsExact(g, cut);
      var rows := Upto(cols, now);
      forall j | 0 <= j < |rows| && Usable(g, rows[j]) ensures rows[j].ts < long[k].openTime {
        assert rows == Upto(cut, now) && rows[j] == cut[j];
        var i :| 0 <= i < |short| && short[i].openTime <= cut[j].ts < short[i].closeTime;
        assert long[i].closeTime <= long[k].openTime;
      }
      NothingFrom(g, rows, long[k].openTime);
    }
  }

  lemma FormingUnchanged(g: Grid, cols: seq<Quote>, now: int, cutoff: int)
    requires g.interval > 0 && TimeSorted(cols) && now <= cutoff
    ensures var cut := Upto(cols, cutoff); Forming(g, BarsOf(g, cut), cut, now) == Forming(g, BarsOf(g, cols), cols, now)
  {
    CutAgrees(g, cols, now, cutoff);
    FormingCausal(g, cols, now, cutoff);
  }

  lemma {:induction false} NothingFrom(g: Grid, rows: seq<Quote>, openTime: int)
    requires forall j :: 0 <= j < |rows| && Usable(g, rows[j]) ==> rows[j].ts < openTime
    ensures UsableFrom(g, rows, openTime) == []
  {
    if rows != [] {
      NothingFrom(g, rows[..|rows| - 1], openTime);
    }
  }

  /** Bar accessors trust the time their caller passes: a read is blind to data after the cutoff, for
      every column, exactly when the time passed is not after the cutoff. */
  lemma GateIsExact(g: Grid, asOf: int, cutoff: int)
    requires g.interval > 0
    ensures (forall cols :: TimeSorted(cols) ==> Forming(g, BarsOf(g, Upto(cols, cutoff)), Upto(cols, cutoff), asOf) == Forming(g, BarsOf(g, cols), cols, asOf))
       <==> asOf <= cutoff
  {
    if asOf <= cutoff {
      forall cols | TimeSorted(cols)
        ensures Forming(g, BarsOf(g, Upto(cols, cutoff)), Upto(cols, cutoff), asOf) == Forming(g, BarsOf(g, cols), cols, asOf)
      {
        FormingUnchanged(g, cols, asOf, cutoff);
      }
    } else {
      var cols := [Quote(asOf, 100, 100, 100, 1, 1, 1, 0)];
      FutureRowLeaks(g, cols, asOf, cutoff);
      assert TimeSorted(cols);
    }
  }

  lemma FutureRowLeaks(g: Grid, cols: seq<Quote>, asOf: int, cutoff: int)
    requires g.interval > 0 && asOf > cutoff && cols == [Quote(asOf, 100, 100, 100, 1, 1, 1, 0)]
    ensures Forming(g, BarsOf(g, Upto(cols, cutoff)), Upto(cols, cutoff), asOf) == None
    ensures Forming(g, BarsOf(g, cols), cols, asOf).Some?
  {
    OneRow(cols[0], asOf, cutoff);
    LoneRowForms(g, cols, asOf);
  }

  lemma OneRow(q: Quote, asOf: int, cutoff: int)
    requires q.ts == asOf > cutoff
    ensures Upto([q], cutoff) == [] && Upto([q], asOf) == [q]
  {
    assert [q][..0] == [];
  }

  lemma LoneBar(g: Grid, q: Quote)
    requires g.interval > 0 && Usable(g, q)
    ensures BarsOf(g, [q]) == [NewBar(g, BucketOf(g, q.ts), q)]
  {
    hide BucketOf, NewBar, BucketStart, Usable;
    assert [q][..0] == [];
  }

  lemma LoneRunning(g: Grid, q: Quote, openTime: int, closeTime: int)
    requires Usable(g, q) && openTime <= q.ts
    ensures UsableFrom(g, [q], openTime) == [q] && Running(g, openTime, closeTime, [q]).Some?
  {
    hide Usable;
    assert [q][..0] == [];
  }

  lemma LoneRowForms(g: Grid, cols: seq<Quote>, asOf: int)
    requires g.interval > 0 && cols == [Quote(asOf, 100, 100, 100, 1, 1, 1, 0)]
    ensures Upto(cols, asOf) == cols ==> Forming(g, BarsOf(g, cols), cols, asOf).Some?
    ensures forall a :: Forming(g, BarsOf(g, []), [], a) == None
  {
    hide BucketOf, BucketStart, UsableFrom, Running, Upto;
    var q := cols[0];
    assert Usable(g, q);
    BucketHolds(g, asOf);
    LoneBar(g, q);
    var bar := NewBar(g, BucketOf(g, asOf), q);
    assert KnownCount([bar], asOf) == 0;
    LoneRunning(g, q, bar.openTime, bar.closeTime);
  }
}
