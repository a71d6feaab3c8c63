/** No look-ahead across sessions: clipping one session of a run at a cutoff, and dropping every later
    date, keeps exactly the trades filled by the cutoff. */
module BacktestLookahead {
  import opened Types
  import opened Books
  import opened Soundness
  import opened Sessions
  import Calendar
  import opened Strategies
  import opened EventLoop
  import opened RunProperties
  import opened Backtest
  import opened BacktestProperties
  import opened CarriedMarks
  import opened Lookahead

  /** The same source, with the session of one date clipped. */
  function ClipAt(load: int -> Option<Session>, date: int, s: Session, cutoff: int): int -> Option<Session> {
    d => if d == date then Some(Truncate(s, cutoff)) else load(d)
  }

  lemma OnlyLaterTransitive(a: seq<Trade>, b: seq<Trade>, c: seq<Trade>, cutoff: int)
    requires OnlyLater(a, b, cutoff) && OnlyLater(b, c, cutoff)
    ensures OnlyLater(a, c, cutoff)
  {
    forall i | |a| <= i < |c| ensures c[i].fillTs > cutoff {
      if i < |b| { assert c[i] == b[i]; }
    }
  }

  // ----- after the cutoff ---------------------------------------------------------------------

  /** The run has ended, or its clock has passed the cutoff. */
  predicate Beyond<S>(run: Replay<S>, cutoff: int) {
    Alive(run.task) ==> run.clock > cutoff
  }

  lemma StepLater<S>(st: Strategy<S>, s: Session, cfg: Config, run: Replay<S>, t: int, base: nat, cutoff: int)
    requires Ready(run.book) && Good(run.book, s, cfg, run.clock, base) && run.clock > cutoff
    requires Alive(run.task) && run.clock <= t ==> run.clock < t || run.book.pending == []
    ensures OnlyLater(run.book.trades, Step(st, s, cfg, run, t).book.trades, cutoff)
  {
    hide Good, Serve, Wake;
    StepGood(st, s, cfg, run, t, base);
  }

  lemma {:induction false} SessionLater<S>(st: Strategy<S>, s: Session, cfg: Config, start: Replay<S>, steps: seq<int>, k: nat, base: nat, cutoff: int)
    requires k <= |steps| && Enterable(start, steps) && Good(start.book, s, cfg, start.clock, base) && start.clock > cutoff
    ensures var run := RunFrom(st, s, cfg, start, steps, k);
            OnlyLater(start.book.trades, run.book.trades, cutoff) && run.clock > cutoff
  {
    hide Good, Step, OnlyLater;
    RunGood(st, s, cfg, start, steps, k, base);
    if k > 0 {
      SessionLater(st, s, cfg, start, steps, k - 1, base, cutoff);
      RunGood(st, s, cfg, start, steps, k - 1, base);
      var run := RunFrom(st, s, cfg, start, steps, k - 1);
      StepLater(st, s, cfg, run, steps[k - 1], base, cutoff);
      OnlyLaterTransitive(start.book.trades, run.book.trades, RunFrom(st, s, cfg, start, steps, k).book.trades, cutoff);
    } else {
      NothingLater(start.book.trades, cutoff);
    }
  }

  lemma NothingLater(trades: seq<Trade>, cutoff: int)
    ensures OnlyLater(trades, trades, cutoff)
  {
  }

  /** Whatever a close logs comes at its settlement time. */
  lemma CloseLater<S>(l: Progress<S>, plan: Plan, s: Session, date: int, seen: nat, cutoff: int)
    requires Ready(l.run.book) && Standing(l.run.book, plan.cfg, l.run.clock, |s.registry|)
    requires cutoff < SettleTime(plan, date, l.run.clock)
    ensures var r := Close(l, plan, s, date, seen);
            OnlyLater(l.run.book.trades, r.run.book.trades, cutoff) && Beyond(r.run, cutoff)
  {
    hide Standing, SettleSeries, DueExpiries, CancelWorking, SettleTime, Overnight;
    if Alive(l.run.task) {
      CloseSafe(l, plan, s, date, seen);
    }
  }

  lemma DayLater<S>(st: Strategy<S>, plan: Plan, dates: seq<int>, load: int -> Option<Session>, registry: seq<InstrumentSpec>,
                    k: nat, cutoff: int)
    requires Source(dates, load, registry) && k < |dates| && Beyond(Days(st, plan, dates, load, k).run, cutoff)
    ensures var l, r := Days(st, plan, dates, load, k), Days(st, plan, dates, load, k + 1);
            OnlyLater(l.run.book.trades, r.run.book.trades, cutoff) && Beyond(r.run, cutoff)
  {
    hide Good, Standing, Timeline, RunFrom, Close, Enterable, Timed, Started;
    var l := Days(st, plan, dates, load, k);
    if load(dates[k]).Some? && Alive(l.run.task) {
      var s := load(dates[k]).value;
      var base := |l.run.book.trades|;
      DayEntered(st, plan, dates, load, registry, k, s);
      SessionLater(st, s, plan.cfg, l.run, Timeline(s), |Timeline(s)|, base, cutoff);
      RunGood(st, s, plan.cfg, l.run, Timeline(s), |Timeline(s)|, base);
      var run := RunFrom(st, s, plan.cfg, l.run, Timeline(s), |Timeline(s)|);
      GoodIsStanding(run.book, s, plan.cfg, run.clock, base);
      CloseLater(l.(run := run), plan, s, dates[k], base, cutoff);
      OnlyLaterTransitive(l.run.book.trades, run.book.trades, Days(st, plan, dates, load, k + 1).run.book.trades, cutoff);
    } else if !Alive(l.run.task) {
      DeadDay(st, plan, l, dates[k], load);
    }
  }

  lemma {:induction false} LaterDays<S>(st: Strategy<S>, plan: Plan, dates: seq<int>, load: int -> Option<Session>,
                                        registry: seq<InstrumentSpec>, j: nat, k: nat, cutoff: int)
    requires Source(dates, load, registry) && j <= k <= |dates| && Beyond(Days(st, plan, dates, load, j).run, cutoff)
    ensures var l, r := Days(st, plan, dates, load, j), Days(st, plan, dates, load, k);
            OnlyLater(l.run.book.trades, r.run.book.trades, cutoff) && Beyond(r.run, cutoff)
  {
    hide Days, OnlyLater;
    NothingLater(Days(st, plan, dates, load, j).run.book.trades, cutoff);
    if j < k {
      LaterDays(st, plan, dates, load, registry, j, k - 1, cutoff);
      DayLater(st, plan, dates, load, registry, k - 1, cutoff);
      OnlyLaterTransitive(Days(st, plan, dates, load, j).run.book.trades, Days(st, plan, dates, load, k - 1).run.book.trades,
                          Days(st, plan, dates, load, k).run.book.trades, cutoff);
    }
  }

  // ----- before the cutoff --------------------------------------------------------------------

  /** The days before the clipped one are the same in both runs. */
  lemma {:induction false} DaysBefore<S>(st: Strategy<S>, plan: Plan, dates: seq<int>, load: int -> Option<Session>,
                                         registry: seq<InstrumentSpec>, k: nat, s: Session, cutoff: int, j: nat)
    requires Source(dates, load, registry) && j <= k < |dates| && load(dates[k]) == Some(s) && 0 <= cutoff
    requires forall i :: 0 <= i < k ==> dates[i] != dates[k]
    ensures ClipAt(load, dates[k], s, cutoff)(dates[..k + 1][0]).Some?
    ensures Days(st, plan, dates[..k + 1], ClipAt(load, dates[k], s, cutoff), j) == Days(st, plan, dates, load, j)
  {
    hide Day, Started, Truncate, Sorted;
    var cut := ClipAt(load, dates[k], s, cutoff);
    if j > 0 {
      DaysBefore(st, plan, dates, load, registry, k, s, cutoff, j - 1);
      SameDay(st, plan, Days(st, plan, dates, load, j - 1), dates[j - 1], load, cut);
    } else if k == 0 {
      StartCausal(st, s, plan.cfg, cutoff);
    }
  }

  lemma SameDay<S>(st: Strategy<S>, plan: Plan, l: Progress<S>, date: int, load: int -> Option<Session>, cut: int -> Option<Session>)
    requires Ready(l.run.book) && load(date) == cut(date)
    ensures Day(st, plan, l, date, cut) == Day(st, plan, l, date, load)
  {
  }

  /** The clipped session's steps end where the full session stands at the cutoff. */
  lemma ClippedRun<S>(st: Strategy<S>, s: Session, cfg: Config, start: Replay<S>, cutoff: int)
    requires Timed(s) && Ready(start.book)
    ensures var cut, n := Timeline(Truncate(s, cutoff)), CountTimes(Timeline(s), cutoff);
            RunFrom(st, Truncate(s, cutoff), cfg, start, cut, |cut|) == RunFrom(st, s, cfg, start, Timeline(s), n)
  {
    hide RunFrom, Timeline, IsTimeline, CountTimes, Truncate;
    TimedTimeline(s);
    TimelinePrefix(s, cutoff);
    CountTimesSplits(Timeline(s), cutoff);
    RunCausal(st, s, cfg, start, Timeline(s), CountTimes(Timeline(s), cutoff), cutoff);
  }

  // ----- the session with the cutoff ----------------------------------------------------------

  /** How the session goes on after the cutoff, clipped or not: it logs only later trades. */
  lemma DayWithCutoff<S>(st: Strategy<S>, plan: Plan, dates: seq<int>, load: int -> Option<Session>, registry: seq<InstrumentSpec>,
                         k: nat, s: Session, cutoff: int)
    requires Source(dates, load, registry) && k < |dates| && load(dates[k]) == Some(s)
    requires cutoff < Calendar.TimestampOf(dates[k], plan.settleSecond, Calendar.IST_OFFSET_SECONDS)
    requires Alive(Days(st, plan, dates, load, k).run.task)
    ensures var l := Days(st, plan, dates, load, k);
            var mid := RunFrom(st, s, plan.cfg, l.run, Timeline(s), CountTimes(Timeline(s), cutoff)).book.trades;
            var full, part := Day(st, plan, l, dates[k], load), Day(st, plan, l, dates[k], ClipAt(load, dates[k], s, cutoff));
            && OnlyLater(mid, full.run.book.trades, cutoff) && Beyond(full.run, cutoff)
            && OnlyLater(mid, part.run.book.trades, cutoff)
  {
    hide Days, Good, Standing, Timeline, IsTimeline, CountTimes, RunFrom, Close, Enterable, Timed, OnlyLater, Calendar.TimestampOf, Truncate;
    var l := Days(st, plan, dates, load, k);
    var steps, base := Timeline(s), |l.run.book.trades|;
    var n := CountTimes(steps, cutoff);
    DayEntered(st, plan, dates, load, registry, k, s);
    TimedTimeline(s);
    CountTimesSplits(steps, cutoff);
    ClippedRun(st, s, plan.cfg, l.run, cutoff);
    var mid := RunFrom(st, s, plan.cfg, l.run, steps, n);
    RunGood(st, s, plan.cfg, l.run, steps, n, base);
    GoodIsStanding(mid.book, s, plan.cfg, mid.clock, base);
    SameRegistry(s, cutoff);
    CloseLater(l.(run := mid), plan, Truncate(s, cutoff), dates[k], base, cutoff);
    var run := RunFrom(st, s, plan.cfg, l.run, steps, |steps|);
    LaterTrades(st, s, plan.cfg, l.run, steps, n, |steps|, base, cutoff);
    RunGood(st, s, plan.cfg, l.run, steps, |steps|, base);
    GoodIsStanding(run.book, s, plan.cfg, run.clock, base);
    CloseLater(l.(run := run), plan, s, dates[k], base, cutoff);
    OnlyLaterTransitive(mid.book.trades, run.book.trades, Day(st, plan, l, dates[k], load).run.book.trades, cutoff);
  }

  lemma SameRegistry(s: Session, cutoff: int)
    ensures Truncate(s, cutoff).registry == s.registry
  {
  }

  /** Clip session `k` of a run at a cutoff before its settlement time and drop every later date: the
      trades filled by the cutoff are exactly those of the full run, for every strategy. */
  lemma BacktestNoLookAhead<S>(st: Strategy<S>, plan: Plan, dates: seq<int>, load: int -> Option<Session>,
                               registry: seq<InstrumentSpec>, k: nat, s: Session, cutoff: int)
    requires Source(dates, load, registry) && k < |dates| && load(dates[k]) == Some(s)
    requires forall i :: 0 <= i < k ==> dates[i] != dates[k]
    requires 0 <= cutoff < Calendar.TimestampOf(dates[k], plan.settleSecond, Calendar.IST_OFFSET_SECONDS)
    ensures ClipAt(load, dates[k], s, cutoff)(dates[..k + 1][0]).Some?
    ensures TradesUpto(Days(st, plan, dates[..k + 1], ClipAt(load, dates[k], s, cutoff), k + 1).run.book.trades, cutoff)
         == TradesUpto(Days(st, plan, dates, load, |dates|).run.book.trades, cutoff)
  {
    hide Day, OnlyLater, TradesUpto, Calendar.TimestampOf, RunFrom, Timeline, CountTimes;
    var cut := ClipAt(load, dates[k], s, cutoff);
    DaysBefore(st, plan, dates, load, registry, k, s, cutoff, k);
    var l := Days(st, plan, dates, load, k);
    var part, after, full := Days(st, plan, dates[..k + 1], cut, k + 1), Days(st, plan, dates, load, k + 1), Days(st, plan, dates, load, |dates|);
    assert part == Day(st, plan, l, dates[k], cut) && after == Day(st, plan, l, dates[k], load);
    var mid := l.run.book.trades;
    if Alive(l.run.task) {
      DayWithCutoff(st, plan, dates, load, registry, k, s, cutoff);
      mid := RunFrom(st, s, plan.cfg, l.run, Timeline(s), CountTimes(Timeline(s), cutoff)).book.trades;
    } else {
      DeadDay(st, plan, l, dates[k], cut);
      DeadDay(st, plan, l, dates[k], load);
      NothingLater(mid, cutoff);
    }
    LaterDays(st, plan, dates, load, registry, k + 1, |dates|, cutoff);
    OnlyLaterTransitive(mid, after.run.book.trades, full.run.book.trades, cutoff);
    LaterIgnored(mid, part.run.book.trades, cutoff);
    LaterIgnored(mid, full.run.book.trades, cutoff);
  }
}
