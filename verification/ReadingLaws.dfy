/** What each of the engine's readings is, said from the rows themselves. */
module ReadingLaws {
  import opened Types
  import opened Books
  import opened Sessions
  import opened Bars
  import opened Indicators
  import opened Strategies
  import opened Calendar
  import Words
  import opened Fractions

  // ----- quotes -------------------------------------------------------------------------------

  /** Row `i` is the last one that had happened by `now`. */
  predicate LastRow(cols: seq<Quote>, now: int, i: int) {
    0 <= i < |cols| && cols[i].ts <= now && forall j :: i < j < |cols| ==> cols[j].ts > now
  }

  lemma CountSplits(cols: seq<Quote>, now: int)
    requires TimeSorted(cols)
    ensures forall j :: 0 <= j < |cols| ==> (cols[j].ts <= now <==> j < CountUpto(cols, now))
  {
    var n := CountUpto(cols, now);
    forall j | 0 <= j < |cols| ensures cols[j].ts <= now <==> j < n {
      if j < n { SortedPair(cols, j, n - 1); } else { SortedPair(cols, n, j); }
    }
  }

  lemma LastRowIs(cols: seq<Quote>, now: int, i: int)
    requires TimeSorted(cols) && LastRow(cols, now, i)
    ensures CountUpto(cols, now) == i + 1
  {
    CountUptoUnique(cols, now, i + 1);
  }

  /** An instrument has a quote if and only if some row of it had happened. */
  lemma HasQuoteLaw(s: Session, cfg: Config, b: Book, now: int, id: int)
    requires Sorted(s)
    ensures AnswerTo(s, cfg, b, now, HasQuote(id)) == Flag(exists i :: 0 <= i < |Quotes(s, id)| && Quotes(s, id)[i].ts <= now)
  {
    var cols := Quotes(s, id);
    SortedColumn(s, id);
    hide TimeSorted, CountUpto, Sorted;
    CountSplits(cols, now);
    if CountUpto(cols, now) > 0 { assert cols[0].ts <= now; }
  }

  /** The quote `back` steps ago is that many rows before the last one that had happened; and that last one
      is what fills, marks and rules see. */
  lemma QuoteLaw(s: Session, cfg: Config, b: Book, now: int, id: int, i: nat, back: nat)
    requires Sorted(s) && LastRow(Quotes(s, id), now, i)
    ensures AsOf(s, now).Latest(id) == Some(Quotes(s, id)[i])
    ensures AnswerTo(s, cfg, b, now, QuoteBack(id, back)) == Quoted(if back <= i then Some(Quotes(s, id)[i - back]) else None)
  {
    hide TimeSorted, CountUpto, Sorted, AsOf;
    SortedColumn(s, id);
    LastRowIs(Quotes(s, id), now, i);
    AsOfLatest(s, now, id);
  }

  /** Before its first row an instrument has nothing to see. */
  lemma NoQuoteLaw(s: Session, cfg: Config, b: Book, now: int, id: int, back: nat)
    requires Sorted(s) && forall i :: 0 <= i < |Quotes(s, id)| ==> Quotes(s, id)[i].ts > now
    ensures AsOf(s, now).Latest(id).None? && AnswerTo(s, cfg, b, now, QuoteBack(id, back)) == Quoted(None)
  {
    hide TimeSorted, Sorted, AsOf;
    AsOfLatest(s, now, id);
  }

  /** A negative step back is a question about the future, and is refused. */
  lemma FutureRefused(s: Session, cfg: Config, b: Book, now: int, id: int, back: int)
    requires back < 0
    ensures AnswerTo(s, cfg, b, now, QuoteBack(id, back)) == Refused
  {
  }

  /** The clock a strategy reads is the engine's, and the book it reads is its own, to the last field it
      can see. */
  lemma OwnStateLaw(s: Session, cfg: Config, b: Book, now: int)
    ensures AnswerTo(s, cfg, b, now, Clock) == Now(now)
    ensures var a := AnswerTo(s, cfg, b, now, ReadBook);
            && a.BookRead? && a.book.positions == b.positions && a.book.pending == b.pending && a.book.rules == b.rules
            && a.book.trades == b.trades && a.book.realized == b.realized && a.book.costs == b.costs && a.book.delay == b.delay
            && a.book.cancelled == b.cancelled && a.book.settledLegs == b.settledLegs && a.book.rulesFired == b.rulesFired
            && a.book.illiquid == b.illiquid && a.book.oversized == b.oversized
  {
  }

  // ----- bars ---------------------------------------------------------------------------------

  /** The price a bar uses: the middle of a two-sided quote if asked for, else the last print. */
  lemma BarPriceLaw(g: Grid, q: Quote)
    ensures g.source.LastPrice? || !(q.bid > 0 && q.ask > 0) ==> PriceOf(g, q) == q.last
    ensures g.source.MidPrice? && q.bid > 0 && q.ask > 0 ==> 2 * PriceOf(g, q) <= q.bid + q.ask <= 2 * PriceOf(g, q) + 1
    ensures Usable(g, q) <==> PriceOf(g, q) > 0
  {
  }

  /** Bar `i` is the last one that has closed. */
  predicate LastClosed(bars: seq<Bar>, now: int, i: int) {
    0 <= i < |bars| && bars[i].closeTime <= now && forall j :: i < j < |bars| ==> bars[j].closeTime > now
  }

  /** A completed-bar read at time `t`, never later than the clock, returns the bar that many before the
      last one closed by then. */
  lemma CompletedLaw(s: Session, cfg: Config, b: Book, now: int, id: int, seconds: int, source: BarPrice, t: int, i: nat, back: nat)
    requires Sorted(s) && seconds > 0 && t <= now && !Expired(GridFor(s, cfg, seconds, source), t)
    requires LastClosed(BarsOf(GridFor(s, cfg, seconds, source), Quotes(s, id)), t, i)
    ensures AnswerTo(s, cfg, b, now, CompletedBar(id, seconds, source, now - t, back))
         == BarRead(if back <= i then Some(BarsOf(GridFor(s, cfg, seconds, source), Quotes(s, id))[i - back]) else None)
  {
    var g := GridFor(s, cfg, seconds, source);
    var bars := BarsOf(g, Quotes(s, id));
    SortedColumn(s, id);
    hide BarsOf, Sorted, TimeSorted, GridFor, Expired, KnownCount;
    BarsLaid(g, Quotes(s, id));
    KnownCountMeaning(g, bars, t);
    LastClosedIs(g, bars, t, i);
  }

  lemma LastClosedIs(g: Grid, bars: seq<Bar>, t: int, i: nat)
    requires g.interval > 0 && Laid(g, bars) && LastClosed(bars, t, i)
    ensures KnownCount(bars, t) == i + 1
  {
    hide KnownCount, Laid;
    KnownCountMeaning(g, bars, t);
    var k := KnownCount(bars, t);
    assert i < k;
    assert i + 1 < |bars| ==> !(bars[i + 1].closeTime <= t);
  }

  /** Bars stand on the grid that starts where the session opens, each as wide as was asked for. */
  lemma GridLaw(s: Session, cfg: Config, id: int, seconds: int, source: BarPrice, i: nat)
    requires Sorted(s) && seconds > 0
    requires i < |BarsOf(GridFor(s, cfg, seconds, source), Quotes(s, id))|
    ensures var bar, open := BarsOf(GridFor(s, cfg, seconds, source), Quotes(s, id))[i], TimestampOf(s.date, cfg.openSecond, 19800);
            bar.closeTime - bar.openTime == seconds * 1_000_000_000 && (bar.openTime - open) % (seconds * 1_000_000_000) == 0
  {
    var g := GridFor(s, cfg, seconds, source);
    SortedColumn(s, id);
    hide Sorted, TimeSorted, BarsOf, TimestampOf;
    BarsLaid(g, Quotes(s, id));
    var bar := BarsOf(g, Quotes(s, id))[i];
    assert OnGrid(g, bar);
    var b :| bar.openTime == BucketStart(g, b);
    Words.DivModUnique(b * g.interval, g.interval, b, 0);
  }

  /** A bar or indicator read is refused exactly when it asks for no width, reads ahead, or falls after the
      day that starts at the session's open. */
  lemma RefusedLaw(s: Session, cfg: Config, b: Book, now: int, id: int, seconds: int, source: BarPrice, study: Study, lag: nat, back: int)
    ensures var over := TimestampOf(s.date, cfg.openSecond, 19800) + 86400 * 1_000_000_000;
            var stale := over != 0 && now - lag > over;
            && (AnswerTo(s, cfg, b, now, CompletedBar(id, seconds, source, lag, back)) == Refused <==> seconds <= 0 || back < 0 || stale)
            && (AnswerTo(s, cfg, b, now, FormingBar(id, seconds, source, lag)) == Refused <==> seconds <= 0 || stale)
            && (AnswerTo(s, cfg, b, now, StudyValue(study, id, seconds, source, lag, back)) == Refused
                <==> seconds <= 0 || back < 0 || study.period == 0 || stale)
  {
    hide BarsOf, TimestampOf, Completed, Forming, ReadAt;
  }

  // ----- the bar now building -----------------------------------------------------------------

  /** Two bars over one stretch that summarise the same rows are the same bar. */
  lemma SummaryUnique(g: Grid, a: Bar, b: Bar, rows: seq<Quote>)
    requires Summarises(g, a, rows) && Summarises(g, b, rows) && a.openTime == b.openTime && a.closeTime == b.closeTime
    ensures a == b
  {
    hide PriceOf, Volume;
    var la :| 0 <= la < |rows| && PriceOf(g, rows[la]) == a.low;
    var lb :| 0 <= lb < |rows| && PriceOf(g, rows[lb]) == b.low;
    var ha :| 0 <= ha < |rows| && PriceOf(g, rows[ha]) == a.high;
    var hb :| 0 <= hb < |rows| && PriceOf(g, rows[hb]) == b.high;
    assert a.low == b.low && a.high == b.high;
  }

  lemma {:induction false} RunningSummarises(g: Grid, openTime: int, closeTime: int, rows: seq<Quote>)
    requires rows != []
    ensures var r := Running(g, openTime, closeTime, rows);
            r.Some? && r.value.openTime == openTime && r.value.closeTime == closeTime && Summarises(g, r.value, rows)
  {
    var n := |rows| - 1;
    assert rows == rows[..n] + [rows[n]];
    if n == 0 {
      assert rows == [rows[0]];
      OneRow(g, openTime, closeTime, rows[0]);
    } else {
      RunningSummarises(g, openTime, closeTime, rows[..n]);
      SummariseMore(g, Running(g, openTime, closeTime, rows[..n]).value, rows[..n], rows[n]);
    }
  }

  lemma OneRow(g: Grid, openTime: int, closeTime: int, q: Quote)
    ensures var r := Running(g, openTime, closeTime, [q]);
            r.Some? && r.value.openTime == openTime && r.value.closeTime == closeTime && Summarises(g, r.value, [q])
  {
    assert [q][..0] == [] && [q][0] == q;
  }

  lemma {:induction false} NoneLater(g: Grid, rows: seq<Quote>, openTime: int)
    requires forall j :: 0 <= j < |rows| ==> rows[j].ts < openTime + g.interval
    ensures UsableFrom(g, rows, openTime) == RowsIn(g, rows, openTime)
  {
    if rows != [] {
      NoneLater(g, rows[..|rows| - 1], openTime);
    }
  }

  /** All bars but the last have closed once every row has happened; the last is forming until it closes. */
  lemma LastStillForms(g: Grid, rows: seq<Quote>, now: int)
    requires g.interval > 0 && TimeSorted(rows) && BarsOf(g, rows) != [] && forall j :: 0 <= j < |rows| ==> rows[j].ts <= now
    ensures var bars := BarsOf(g, rows); var last := |bars| - 1;
            bars[last].openTime <= now && KnownCount(bars, now) == if bars[last].closeTime <= now then last + 1 else last
  {
    hide BarsOf, TimeSorted, KnownCount;
    BarsExact(g, rows);
    var bars := BarsOf(g, rows);
    var last := |bars| - 1;
    RowsOfBar(g, rows, bars, last);
    KnownCountMeaning(g, bars, now);
    assert forall i :: 0 <= i < last ==> bars[i].closeTime <= bars[last].openTime;
    assert last > 0 ==> bars[last - 1].closeTime <= now;
  }

  lemma RowsOfBar(g: Grid, rows: seq<Quote>, bars: seq<Bar>, i: nat)
    requires Exact(g, rows, bars) && i < |bars|
    ensures exists j :: 0 <= j < |rows| && bars[i].openTime <= rows[j].ts
  {
    hide PriceOf, Volume;
    SomeRowIn(g, rows, bars[i].openTime);
  }

  lemma {:induction false} SomeRowIn(g: Grid, rows: seq<Quote>, openTime: int)
    requires RowsIn(g, rows, openTime) != []
    ensures exists j :: 0 <= j < |rows| && openTime <= rows[j].ts
  {
    var n := |rows| - 1;
    if !(openTime <= rows[n].ts) {
      SomeRowIn(g, rows[..n], openTime);
      var j :| 0 <= j < n && openTime <= rows[..n][j].ts;
      assert rows[j] == rows[..n][j];
    }
  }

  lemma FormingOfRows(g: Grid, rows: seq<Quote>, now: int)
    requires g.interval > 0 && TimeSorted(rows) && forall j :: 0 <= j < |rows| ==> rows[j].ts <= now
    ensures Forming(g, BarsOf(g, rows), rows, now) == StillOpen(BarsOf(g, rows), now)
  {
    hide Running, UsableFrom, TimeSorted;
    var bars := BarsOf(g, rows);
    if bars == [] {
      assert KnownCount(bars, now) == 0;
    } else {
      LastStillForms(g, rows, now);
      if bars[|bars| - 1].closeTime > now { LastIsRunning(g, rows, now); }
    }
  }

  lemma LastIsRunning(g: Grid, rows: seq<Quote>, now: int)
    requires g.interval > 0 && TimeSorted(rows) && forall j :: 0 <= j < |rows| ==> rows[j].ts <= now
    requires BarsOf(g, rows) != [] && BarsOf(g, rows)[|BarsOf(g, rows)| - 1].closeTime > now
    ensures var bar := BarsOf(g, rows)[|BarsOf(g, rows)| - 1];
            Running(g, bar.openTime, bar.closeTime, UsableFrom(g, Upto(rows, now), bar.openTime)) == Some(bar)
  {
    hide BarsOf, TimeSorted, Summarises, Running, RowsIn, UsableFrom;
    BarsExact(g, rows);
    var bars := BarsOf(g, rows);
    var bar := bars[|bars| - 1];
    assert OnGrid(g, bar);
    CountUptoUnique(rows, now, |rows|);
    assert Upto(rows, now) == rows;
    NoneLater(g, rows, bar.openTime);
    SummaryHasRows(g, bar, RowsIn(g, rows, bar.openTime));
    RunningSummarises(g, bar.openTime, bar.closeTime, RowsIn(g, rows, bar.openTime));
    SummaryUnique(g, bar, Running(g, bar.openTime, bar.closeTime, RowsIn(g, rows, bar.openTime)).value, RowsIn(g, rows, bar.openTime));
  }

  lemma SummaryHasRows(g: Grid, bar: Bar, rows: seq<Quote>)
    requires Summarises(g, bar, rows)
    ensures rows != []
  {
  }

  /** The last of the bars, if it is still open at `t`. */
  function StillOpen(bars: seq<Bar>, t: int): Option<Bar> {
    if bars != [] && bars[|bars| - 1].closeTime > t then Some(bars[|bars| - 1]) else None
  }

  /** The bar a strategy sees building at `t` is the last bar built from the rows that have happened by
      then, as long as it has not closed. */
  lemma FormingLaw(s: Session, cfg: Config, b: Book, now: int, id: int, seconds: int, source: BarPrice, t: int)
    requires Sorted(s) && seconds > 0 && t <= now && !Expired(GridFor(s, cfg, seconds, source), t)
    ensures AnswerTo(s, cfg, b, now, FormingBar(id, seconds, source, now - t))
         == BarRead(StillOpen(BarsOf(GridFor(s, cfg, seconds, source), Upto(Quotes(s, id), t)), t))
  {
    var g, rows := GridFor(s, cfg, seconds, source), Quotes(s, id);
    SortedColumn(s, id);
    GridInterval(s, cfg, seconds, source);
    hide *;
    FormingIs(g, rows, t);
    FormingAnswer(s, cfg, b, now, id, seconds, source, t);
  }

  lemma FormingIs(g: Grid, rows: seq<Quote>, t: int)
    requires g.interval > 0 && TimeSorted(rows)
    ensures Forming(g, BarsOf(g, rows), rows, t) == StillOpen(BarsOf(g, Upto(rows, t)), t)
  {
    hide BarsOf, TimeSorted, Forming;
    FormingUnchanged(g, rows, t, t);
    UptoMeaning(rows, t);
    FormingOfRows(g, Upto(rows, t), t);
  }

  lemma FormingAnswer(s: Session, cfg: Config, b: Book, now: int, id: int, seconds: int, source: BarPrice, t: int)
    requires seconds > 0 && t <= now && !Expired(GridFor(s, cfg, seconds, source), t)
    ensures var g := GridFor(s, cfg, seconds, source);
            g.interval > 0 && AnswerTo(s, cfg, b, now, FormingBar(id, seconds, source, now - t)) == BarRead(Forming(g, BarsOf(g, Quotes(s, id)), Quotes(s, id), t))
  {
    GridInterval(s, cfg, seconds, source);
    hide BarsOf, Forming, Expired, GridFor;
  }

  // ----- indicators ---------------------------------------------------------------------------

  /** A true square root on the numbers that have one. */
  ghost predicate IsRoot(root: real -> real) {
    forall x :: x >= 0.0 ==> root(x) >= 0.0 && root(x) * root(x) == x
  }

  lemma {:induction false} SpreadNonNegative(xs: seq<real>, lo: nat, hi: nat, mean: real)
    requires lo <= hi <= |xs|
    ensures WindowSpread(xs, lo, hi, mean) >= 0.0
  {
    if lo < hi {
      SpreadNonNegative(xs, lo, hi - 1, mean);
      SquareNonNegative(xs[hi - 1] - mean);
    }
  }

  /** The bands stand evenly around the mean of the window, the upper one above, at `k` standard deviations:
      the square of their distance is k squared times the mean squared distance of the closes from it. */
  lemma BandsLaw(xs: seq<real>, period: nat, k: real, root: real -> real, i: nat)
    requires period > 0 && i < |xs| && k >= 0.0 && IsRoot(root)
    ensures BandsAt(xs, period, k, root, i).Some? <==> i + 1 >= period
    ensures i + 1 >= period ==>
              var bands, lo := BandsAt(xs, period, k, root, i).value, i + 1 - period;
              && bands.middle == WindowSum(xs, lo, i + 1) / period as real
              && bands.lower <= bands.middle <= bands.upper && bands.upper - bands.middle == bands.middle - bands.lower
              && (bands.upper - bands.middle) * (bands.upper - bands.middle)
                 == k * k * (WindowSpread(xs, lo, i + 1, bands.middle) / period as real)
  {
    hide WindowSum, WindowSpread;
    if i + 1 >= period {
      var mean := WindowSum(xs, i + 1 - period, i + 1) / period as real;
      var spread := WindowSpread(xs, i + 1 - period, i + 1, mean);
      BandsFrom(xs, period, k, root, i, mean, spread);
      SpreadNonNegative(xs, i + 1 - period, i + 1, mean);
      SignKept(spread, period as real);
      var sd := root(spread / period as real);
      BothNonNegative(k, sd);
      Squared(k, sd, spread / period as real);
      BandsStand(mean, k, sd);
    }
  }

  lemma BandsStand(mean: real, k: real, sd: real)
    requires k * sd >= 0.0
    ensures var bands := BandsAround(mean, k, sd);
            && bands.middle == mean && bands.upper - bands.middle == k * sd && bands.middle - bands.lower == k * sd
            && bands.lower <= bands.middle <= bands.upper
  {
  }

  /** An indicator read at `t` is the indicator over the closes of the bars, in currency units, as it stood
      at the bar that many before the last one closed by then. */
  lemma StudyLaw(s: Session, cfg: Config, b: Book, now: int, id: int, seconds: int, source: BarPrice, study: Study, t: int, i: nat, back: nat, xs: seq<real>)
    requires Sorted(s) && seconds > 0 && study.period > 0 && t <= now && !Expired(GridFor(s, cfg, seconds, source), t)
    requires LastClosed(BarsOf(GridFor(s, cfg, seconds, source), Quotes(s, id)), t, i)
    requires var bars := BarsOf(GridFor(s, cfg, seconds, source), Quotes(s, id));
             |xs| == |bars| && forall j :: 0 <= j < |xs| ==> xs[j] * 100.0 == bars[j].close as real
    ensures AnswerTo(s, cfg, b, now, StudyValue(study, id, seconds, source, now - t, back))
         == Level(if back <= i then ValueAt(study, cfg.root, xs, i - back) else None)
  {
    var g := GridFor(s, cfg, seconds, source);
    var bars := BarsOf(g, Quotes(s, id));
    SortedColumn(s, id);
    GridInterval(s, cfg, seconds, source);
    hide *;
    BarsLaid(g, Quotes(s, id));
    LastClosedIs(g, bars, t, i);
    ClosesAre(bars, xs);
    StudyAnswer(s, cfg, b, now, id, seconds, source, study, t, back);
    ReadIs(study, cfg.root, bars, t, i, back);
  }

  lemma StudyAnswer(s: Session, cfg: Config, b: Book, now: int, id: int, seconds: int, source: BarPrice, study: Study, t: int, back: nat)
    requires seconds > 0 && study.period > 0 && t <= now && !Expired(GridFor(s, cfg, seconds, source), t)
    ensures var g := GridFor(s, cfg, seconds, source);
            && g.interval > 0
            && AnswerTo(s, cfg, b, now, StudyValue(study, id, seconds, source, now - t, back))
               == Level(ReadAt(study, cfg.root, BarsOf(g, Quotes(s, id)), t, back))
  {
    GridInterval(s, cfg, seconds, source);
    hide BarsOf, ReadAt, Expired, GridFor;
  }

  lemma ReadIs(study: Study, root: real -> real, bars: seq<Bar>, t: int, i: nat, back: nat)
    requires study.period > 0 && i < |bars| && KnownCount(bars, t) == i + 1
    ensures ReadAt(study, root, bars, t, back) == if back <= i then ValueAt(study, root, Closes(bars), i - back) else None
  {
    hide ValueAt, KnownCount, Closes;
  }

  lemma ClosesAre(bars: seq<Bar>, xs: seq<real>)
    requires |xs| == |bars| && forall j :: 0 <= j < |xs| ==> xs[j] * 100.0 == bars[j].close as real
    ensures Closes(bars) == xs
  {
    assert forall j :: 0 <= j < |xs| ==> xs[j] == bars[j].close as real / 100.0;
  }

  /** Which line of the bands each series is. */
  lemma BandLines(xs: seq<real>, period: nat, k: real, root: real -> real, i: nat)
    requires i + 1 >= period > 0 && i < |xs| && k >= 0.0 && IsRoot(root)
    ensures var upper, lower := ValueAt(Upper(period, k), root, xs, i), ValueAt(Lower(period, k), root, xs, i);
            var middle, mean := ValueAt(Middle(period), root, xs, i), ValueAt(MovingAverage(period), root, xs, i);
            && upper.Some? && lower.Some? && mean.Some? && middle == mean && lower.value <= mean.value <= upper.value
            && upper.value - mean.value == mean.value - lower.value
  {
    hide WindowSum, WindowSpread, IsRoot;
    BandsLaw(xs, period, k, root, i);
    ZeroTimes(root(WindowSpread(xs, i + 1 - period, i + 1, MeanAt(xs, period, i).value) / period as real));
  }
}
