/** The equity identity over whole runs, for every fill model whose prices are not negative. */
module Valuation {
  import opened Types
  import opened Books
  import opened Matching
  import opened Ledger
  import opened Soundness
  import opened Effects
  import opened Sessions
  import opened Strategies
  import opened EventLoop
  import opened RunProperties
  import opened Backtest
  import opened BacktestProperties
  import opened CarriedMarks

  ghost predicate NonNegativeFills(pol: Policy) {
    forall q, side, qty :: pol.fill(q, side, qty).Some? ==> pol.fill(q, side, qty).value >= 0
  }

  /** Equity is the cash the log paid in and out, less its costs, plus what is held, each holding at its
      exit-side mark. */
  ghost predicate Accounted(b: Book, m: Market) {
    Equity(b, m) == TradeSum(b.trades, Cash) - TradeSum(b.trades, CostOf) + BookSum(b.positions, MarkedValue(m))
  }

  /** The default fill model is one of them. */
  lemma SpreadIsNonNegative(pol: Policy)
    requires CrossesSpread(pol)
    ensures NonNegativeFills(pol)
  {
    forall q, side, qty | pol.fill(q, side, qty).Some? ensures pol.fill(q, side, qty).value >= 0 {
      assert pol.fill(q, side, qty) == CrossSpread(q, side, qty);
    }
  }

  // ----- one step -----------------------------------------------------------------------------

  lemma ContinuesEntries(b: Book, b': Book)
    requires Continues(b, b') && EntriesNonNegative(b)
    ensures EntriesNonNegative(b')
  {
  }

  lemma FilledEntries(b: Book, pol: Policy, m: Market)
    requires Matched(b) && EntriesNonNegative(b) && NonNegativeFills(pol)
    ensures EntriesNonNegative(ProcessPending(b, pol, m))
  {
    ProcessPendingEffect(b, pol, m);
    var b' := ProcessPending(b, pol, m);
    forall p, i | HasLeg(b', p, i) && LegAt(b', p, i).Live() ensures LegAt(b', p, i).entry >= 0 {
      assert HasLeg(b, p, i);
      if LegAt(b, p, i).Working() {
        WorkedIsWorking(b, p, i);
        var j :| 0 <= j < |b.pending| && b.pending[j].position == p && b.pending[j].leg == i;
        var o := b.pending[j];
        assert OrderMatches(o, LegAt(b, p, i), b.delay);
        assert LegAt(b', o.position, o.leg) == AfterFill(LegAt(b, o.position, o.leg), o, pol, m);
      }
    }
  }

  lemma MarkedEntries(b: Book, m: Market)
    requires EntriesNonNegative(b)
    ensures EntriesNonNegative(RefreshMarks(b, m))
  {
    var b' := RefreshMarks(b, m);
    forall p, i | HasLeg(b', p, i) && LegAt(b', p, i).Live() ensures LegAt(b', p, i).entry >= 0 {
      assert HasLeg(b, p, i) && LegAt(b', p, i) == Remarked(LegAt(b, p, i), m);
    }
  }

  lemma ServeEntries(b: Book, cfg: Config, m: Market)
    requires Ready(b) && Sound(b) && EntriesNonNegative(b) && NonNegativeFills(cfg.pol)
    ensures EntriesNonNegative(Serve(b, cfg, m))
  {
    hide ProcessPending, RefreshMarks, ProcessRiskRules, NonNegativeFills, EntriesNonNegative, Continues, SpentRules, Balanced, Sane;
    ProcessPendingSound(b, cfg.pol, m);
    FilledEntries(b, cfg.pol, m);
    var c := Filled(b, cfg, m);
    RefreshMarksSound(c, m);
    MarkedEntries(c, m);
    var d := Marked(c, cfg, m);
    RulesContinue(d, m);
    ContinuesEntries(d, ProcessRiskRules(d, m));
  }

  lemma StepEntries<S>(st: Strategy<S>, s: Session, cfg: Config, run: Replay<S>, t: int, base: nat)
    requires Ready(run.book) && Good(run.book, s, cfg, run.clock, base) && EntriesNonNegative(run.book) && NonNegativeFills(cfg.pol)
    requires Alive(run.task) && run.clock <= t ==> run.clock < t || run.book.pending == []
    ensures EntriesNonNegative(Step(st, s, cfg, run, t).book)
  {
    hide EntriesNonNegative, NonNegativeFills, Sound, Serve, Wake, Continues, Honest, OrdersBy, TradesBy, Registered;
    if Alive(run.task) && run.clock <= t {
      var b := Serve(run.book, cfg, AsOf(s, t));
      ServeEntries(run.book, cfg, AsOf(s, t));
      ServeGood(run.book, s, cfg, run.clock, t, base);
      WakeContinues(st, s, cfg, b, t, run.task, 0, base);
      ContinuesEntries(b, Step(st, s, cfg, run, t).book);
    }
  }

  // ----- whole runs ---------------------------------------------------------------------------

  lemma {:induction false} SessionEntries<S>(st: Strategy<S>, s: Session, cfg: Config, start: Replay<S>, steps: seq<int>, k: nat, base: nat)
    requires k <= |steps| && Enterable(start, steps) && Good(start.book, s, cfg, start.clock, base)
    requires NonNegativeFills(cfg.pol) && EntriesNonNegative(start.book)
    ensures EntriesNonNegative(RunFrom(st, s, cfg, start, steps, k).book)
  {
    hide Good, EntriesNonNegative, NonNegativeFills, Step;
    if k > 0 {
      SessionEntries(st, s, cfg, start, steps, k - 1, base);
      RunGood(st, s, cfg, start, steps, k - 1, base);
      StepEntries(st, s, cfg, RunFrom(st, s, cfg, start, steps, k - 1), steps[k - 1], base);
    }
  }

  lemma StartEntries<S>(st: Strategy<S>, s: Session, cfg: Config)
    ensures EntriesNonNegative(Started(st, s, cfg).book)
  {
    hide Started;
    StartHeld(st, s, cfg, false);
  }

  /** At every step of every replay under a fill model without negative prices, however the strategy
      ends, equity is accounted for by the log and the holdings. */
  lemma EquityOfEveryRun<S>(st: Strategy<S>, s: Session, cfg: Config, k: nat, m: Market)
    requires Timed(s) && k <= |Timeline(s)| && NonNegativeFills(cfg.pol)
    ensures Accounted(RunUpto(st, s, cfg, Timeline(s), k).book, m)
  {
    hide Timeline, EntriesNonNegative, NonNegativeFills, Started, Good, Enterable;
    StartEntries(st, s, cfg);
    StartEnterable(st, s, cfg);
    SessionEntries(st, s, cfg, Started(st, s, cfg), Timeline(s), k, 0);
    RunGood(st, s, cfg, Started(st, s, cfg), Timeline(s), k, 0);
    var run := RunUpto(st, s, cfg, Timeline(s), k);
    GoodIsStanding(run.book, s, cfg, run.clock, 0);
    EquityIsCashPlusHoldings(run.book, m);
  }

  lemma CloseEntries<S>(l: Progress<S>, plan: Plan, s: Session, date: int, seen: nat)
    requires Ready(l.run.book) && Sound(l.run.book) && EntriesNonNegative(l.run.book)
    ensures EntriesNonNegative(Close(l, plan, s, date, seen).run.book)
  {
    hide Sound, EntriesNonNegative, SettleSeries, DueExpiries, CancelWorking, Continues;
    var r := Close(l, plan, s, date, seen);
    if Alive(r.run.task) {
      CloseHolds(l, plan, s, date, seen);
      ContinuesEntries(l.run.book, r.run.book);
    }
  }

  /** The steps of session `k` of a run, from wherever the session before left it. */
  lemma InSession<S>(st: Strategy<S>, plan: Plan, dates: seq<int>, load: int -> Option<Session>,
                     registry: seq<InstrumentSpec>, k: nat, s: Session, j: nat)
    requires Source(dates, load, registry) && k < |dates| && load(dates[k]) == Some(s) && j <= |Timeline(s)|
    requires NonNegativeFills(plan.cfg.pol) && EntriesNonNegative(Days(st, plan, dates, load, k).run.book)
    ensures var b := RunFrom(st, s, plan.cfg, Days(st, plan, dates, load, k).run, Timeline(s), j).book;
            Sound(b) && EntriesNonNegative(b)
  {
    hide Days, DayInv, EntriesNonNegative, NonNegativeFills, Timeline, RunFrom, Good, Enterable;
    var start := Days(st, plan, dates, load, k).run;
    if Alive(start.task) {
      DayEntered(st, plan, dates, load, registry, k, s);
      SessionEntries(st, s, plan.cfg, start, Timeline(s), j, |start.book.trades|);
      RunGood(st, s, plan.cfg, start, Timeline(s), j, |start.book.trades|);
      var run := RunFrom(st, s, plan.cfg, start, Timeline(s), j);
      GoodIsStanding(run.book, s, plan.cfg, run.clock, |start.book.trades|);
    } else {
      DeadStays(st, s, plan.cfg, start, Timeline(s), j);
      DayIsSound(st, plan, dates, load, registry, k);
    }
  }

  lemma DayIsSound<S>(st: Strategy<S>, plan: Plan, dates: seq<int>, load: int -> Option<Session>, registry: seq<InstrumentSpec>, k: nat)
    requires Source(dates, load, registry) && k <= |dates|
    ensures Sound(Days(st, plan, dates, load, k).run.book)
  {
    hide Days, Sound;
    DaysKeep(st, plan, dates, load, registry, k);
  }

  lemma {:induction false} DaysEntries<S>(st: Strategy<S>, plan: Plan, dates: seq<int>, load: int -> Option<Session>,
                                          registry: seq<InstrumentSpec>, k: nat)
    requires Source(dates, load, registry) && k <= |dates| && NonNegativeFills(plan.cfg.pol)
    ensures EntriesNonNegative(Days(st, plan, dates, load, k).run.book)
  {
    hide EntriesNonNegative, NonNegativeFills, Sound, Timed, Timeline, RunFrom, Close, Started;
    if k == 0 {
      StartEntries(st, load(dates[0]).value, plan.cfg);
    } else {
      DaysEntries(st, plan, dates, load, registry, k - 1);
      if load(dates[k - 1]).Some? {
        var l, s := Days(st, plan, dates, load, k - 1), load(dates[k - 1]).value;
        InSession(st, plan, dates, load, registry, k - 1, s, |Timeline(s)|);
        var run := RunFrom(st, s, plan.cfg, l.run, Timeline(s), |Timeline(s)|);
        CloseEntries(l.(run := run), plan, s, dates[k - 1], |l.run.book.trades|);
      }
    }
  }

  /** The same identity throughout a multi-session run: after every session, and after every step of
      every session. */
  lemma EquityOfEveryBacktest<S>(st: Strategy<S>, plan: Plan, dates: seq<int>, load: int -> Option<Session>,
                                 registry: seq<InstrumentSpec>, k: nat, m: Market)
    requires Source(dates, load, registry) && k <= |dates| && NonNegativeFills(plan.cfg.pol)
    ensures Accounted(Days(st, plan, dates, load, k).run.book, m)
    ensures k < |dates| && load(dates[k]).Some? ==>
              var s := load(dates[k]).value;
              forall j :: 0 <= j <= |Timeline(s)| ==>
                Accounted(RunFrom(st, s, plan.cfg, Days(st, plan, dates, load, k).run, Timeline(s), j).book, m)
  {
    hide Days, EntriesNonNegative, NonNegativeFills, Timeline, RunFrom, Timed, Accounted;
    DaysEntries(st, plan, dates, load, registry, k);
    DayIsSound(st, plan, dates, load, registry, k);
    SoundAccounts(Days(st, plan, dates, load, k).run.book, m);
    if k < |dates| && load(dates[k]).Some? {
      var s := load(dates[k]).value;
      forall j | 0 <= j <= |Timeline(s)|
        ensures Accounted(RunFrom(st, s, plan.cfg, Days(st, plan, dates, load, k).run, Timeline(s), j).book, m)
      {
        InSession(st, plan, dates, load, registry, k, s, j);
        SoundAccounts(RunFrom(st, s, plan.cfg, Days(st, plan, dates, load, k).run, Timeline(s), j).book, m);
      }
    }
  }

  lemma SoundAccounts(b: Book, m: Market)
    requires Sound(b) && EntriesNonNegative(b)
    ensures Accounted(b, m)
  {
    EquityIsCashPlusHoldings(b, m);
  }
}
