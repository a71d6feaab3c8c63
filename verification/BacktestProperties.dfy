/** What holds after every session of a multi-session run. */
module BacktestProperties {
  import opened Types
  import opened Books
  import opened Matching
  import opened Ledger
  import opened Soundness
  import opened EndOfDay
  import opened Effects
  import opened Sessions
  import opened Strategies
  import opened EventLoop
  import opened RunProperties
  import opened Backtest

  // ----- which series are due -----------------------------------------------------------------

  /** The due series are exactly the arrived expiries of live option legs. */
  lemma {:induction false} DueUptoMeaning(b: Book, registry: seq<InstrumentSpec>, today: int, p: nat, i: nat)
    requires p <= |b.positions| && (if p < |b.positions| then i <= |b.positions[p].legs| else i == 0)
    ensures Ascending(DueUpto(b, registry, today, p, i))
    ensures forall q, j :: HasLeg(b, q, j) && (q < p || (q == p && j < i)) && IsDue(LegAt(b, q, j), registry, today)
              ==> SpecOf(registry, LegAt(b, q, j).instrument).expiry in DueUpto(b, registry, today, p, i)
    ensures forall e :: e in DueUpto(b, registry, today, p, i) ==>
              exists q, j :: HasLeg(b, q, j) && IsDue(LegAt(b, q, j), registry, today) && SpecOf(registry, LegAt(b, q, j).instrument).expiry == e
    decreases p, i
  {
    if i > 0 {
      DueUptoMeaning(b, registry, today, p, i - 1);
      assert HasLeg(b, p, i - 1);
      InsertAscends(DueUpto(b, registry, today, p, i - 1), SpecOf(registry, LegAt(b, p, i - 1).instrument).expiry);
    } else if p > 0 {
      DueUptoMeaning(b, registry, today, p - 1, |b.positions[p - 1].legs|);
    }
  }

  // ----- settling every due series ------------------------------------------------------------

  /** What is live afterwards is exactly as it was before. */
  ghost predicate LiveKept(b: Book, c: Book) {
    SameShape(b, c) && forall p, i :: HasLeg(b, p, i) && LegAt(c, p, i).Live() ==> LegAt(c, p, i) == LegAt(b, p, i)
  }

  lemma {:induction false} SettlementsSettled(b: Book, pol: Policy, m: Market, expiry: int, level: real, when: int, p: nat, i: nat)
    requires p <= |b.positions| && (if p < |b.positions| then i <= |b.positions[p].legs| else i == 0)
    ensures forall t :: t in Settlements(b, pol, m, expiry, level, when, p, i) ==> t.settled && t.fillTs == when
    decreases p, i
  {
    if i > 0 {
      SettlementsSettled(b, pol, m, expiry, level, when, p, i - 1);
    } else if p > 0 {
      SettlementsSettled(b, pol, m, expiry, level, when, p - 1, |b.positions[p - 1].legs|);
    }
  }

  lemma {:induction false} KeptAfterSubset(orders: seq<Order>, m: Market, expiry: int)
    ensures forall o :: o in KeptAfterExpiry(orders, m, expiry) ==> o in orders
  {
    if orders != [] {
      KeptAfterSubset(orders[..|orders| - 1], m, expiry);
    }
  }

  /** Only settlements were logged, all of them at `now`. */
  ghost predicate OnlySettled(b: Book, c: Book, now: int) {
    b.trades <= c.trades && forall k :: |b.trades| <= k < |c.trades| ==> c.trades[k].settled && c.trades[k].fillTs == now
  }

  ghost predicate Settling(b: Book, c: Book, now: int) {
    && Sound(c) && Evolves(b, c, false) && LiveKept(b, c) && OnlySettled(b, c, now) && OnlyNew(b, c, now)
    && c.settledLegs >= b.settledLegs
  }

  lemma OnlySettlements(b: Book, pol: Policy, m: Market, expiry: int, level: real, now: int)
    requires Ready(b) && Matched(b)
    ensures OnlySettled(b, SettleExpiry(b, pol, m, expiry, level, now), now)
  {
    hide SettleExpiry, Settlements, MatchedBut;
    var c := SettleExpiry(b, pol, m, expiry, level, now);
    SettleExpiryEffect(b, pol, m, expiry, level, now);
    SettlementsSettled(b, pol, m, expiry, level, now, |b.positions|, 0);
    var added := Settlements(b, pol, m, expiry, level, now, |b.positions|, 0);
    forall k | |b.trades| <= k < |c.trades| ensures c.trades[k].settled && c.trades[k].fillTs == now {
      assert c.trades[k] == added[k - |b.trades|] && added[k - |b.trades|] in added;
    }
  }

  lemma SettlingKeepsLive(b: Book, pol: Policy, m: Market, expiry: int, level: real, now: int)
    requires Ready(b) && Matched(b)
    ensures var c := SettleExpiry(b, pol, m, expiry, level, now); LiveKept(b, c) && OnlyNew(b, c, now)
  {
    hide SettleExpiry, Settlements, MatchedBut, KeptAfterExpiry;
    SettleExpiryEffect(b, pol, m, expiry, level, now);
    KeptAfterSubset(b.pending, m, expiry);
    var c := SettleExpiry(b, pol, m, expiry, level, now);
    forall k | 0 <= k < |c.pending| ensures c.pending[k] in b.pending {
      assert c.pending[k] in KeptAfterExpiry(b.pending, m, expiry);
    }
  }

  lemma SettleOneSeries(b: Book, pol: Policy, m: Market, expiry: int, level: real, now: int)
    requires Ready(b) && Sound(b)
    ensures var c := SettleExpiry(b, pol, m, expiry, level, now); Settling(b, c, now) && NoneHeld(c, Series(m, expiry))
  {
    hide SettleExpiry, MatchedBut, Sane, Timely, SpentRules, Evolves, LiveKept, OnlySettled, OnlyNew, NoneHeld;
    SettleExpirySound(b, pol, m, expiry, level, now);
    OnlySettlements(b, pol, m, expiry, level, now);
    SettlingKeepsLive(b, pol, m, expiry, level, now);
    SettledGrow(b, SettleExpiry(b, pol, m, expiry, level, now), now);
  }

  lemma SettledGrow(b: Book, c: Book, now: int)
    requires Balanced(b) && Balanced(c) && OnlySettled(b, c, now)
    ensures c.settledLegs >= b.settledLegs
  {
    SettledLegsGrow(b, c, now);
  }

  lemma SettledLegsGrow(b: Book, c: Book, now: int)
    requires Balanced(b) && Balanced(c) && b.trades <= c.trades
    ensures c.settledLegs >= b.settledLegs
  {
    TradeSumGrows(b.trades, c.trades);
  }

  lemma {:induction false} TradeSumGrows(a: seq<Trade>, c: seq<Trade>)
    requires a <= c
    ensures TradeSum(a, SettlementTrade) <= TradeSum(c, SettlementTrade)
  {
    if |a| < |c| {
      TradeSumGrows(a, c[..|c| - 1]);
    } else {
      assert a == c;
    }
  }

  lemma SettlingTransitive(a: Book, b: Book, c: Book, now: int)
    requires Settling(a, b, now) && Settling(b, c, now)
    ensures Settling(a, c, now)
  {
    EvolvesTransitive(a, b, c, false);
    forall p, i | HasLeg(a, p, i) && LegAt(c, p, i).Live() ensures LegAt(c, p, i) == LegAt(a, p, i) {
      assert HasLeg(b, p, i);
    }
    forall k | 0 <= k < |c.pending| ensures c.pending[k] in a.pending || c.pending[k].submittedAt == now {
      if c.pending[k] in b.pending {
        var j :| 0 <= j < |b.pending| && b.pending[j] == c.pending[k];
      }
    }
  }

  lemma NoneHeldKept(b: Book, c: Book, dead: set<int>)
    requires NoneHeld(b, dead) && LiveKept(b, c)
    ensures NoneHeld(c, dead)
  {
    forall p, i | HasLeg(c, p, i) && LegAt(c, p, i).Live() ensures LegAt(c, p, i).instrument !in dead {
      assert HasLeg(b, p, i);
    }
  }

  lemma SettlingNothing(b: Book, now: int)
    requires Sound(b)
    ensures Settling(b, b, now)
  {
    EvolvesReflexive(b, false);
  }

  lemma {:induction false} SettleSeriesSound(b: Book, plan: Plan, s: Session, now: int, due: seq<int>, k: nat)
    requires Ready(b) && Sound(b) && k <= |due| && SettleSeries(b, plan, s, now, due, k).Some?
    ensures var c := SettleSeries(b, plan, s, now, due, k).value;
            Settling(b, c, now) && forall j :: 0 <= j < k ==> NoneHeld(c, Series(AsOf(s, now), due[j]))
  {
    hide Sound, Settling, NoneHeld, SettleExpiry, SettlementLevel, Series;
    if k == 0 {
      SettlingNothing(b, now);
    } else {
      SettleSeriesSound(b, plan, s, now, due, k - 1);
      var c := SettleSeries(b, plan, s, now, due, k - 1).value;
      var level := SettlementLevel(plan, s, now, due[k - 1]).value;
      var d := SettleExpiry(c, plan.cfg.pol, AsOf(s, now), due[k - 1], level, now);
      SettlingSound(b, c, now);
      SettleOneSeries(c, plan.cfg.pol, AsOf(s, now), due[k - 1], level, now);
      SettlingTransitive(b, c, d, now);
      SettlingSound(c, d, now);
      forall j | 0 <= j < k - 1 ensures NoneHeld(d, Series(AsOf(s, now), due[j])) {
        NoneHeldKept(c, d, Series(AsOf(s, now), due[j]));
      }
    }
  }

  lemma SettlingSound(b: Book, c: Book, now: int)
    requires Settling(b, c, now)
    ensures Sound(c) && LiveKept(b, c)
  {
  }

  // ----- after the close ----------------------------------------------------------------------

  /** Nothing works overnight, every leg is open, closed or cancelled, and no live option has expired. */
  ghost predicate Overnight(b: Book, registry: seq<InstrumentSpec>, date: int) {
    && b.pending == []
    && (forall p, i :: HasLeg(b, p, i) ==> !LegAt(b, p, i).Working())
    && (forall p, i :: HasLeg(b, p, i) ==> !IsDue(LegAt(b, p, i), registry, date))
  }

  lemma NothingDue(b: Book, c: Book, s: Session, date: int, now: int)
    requires LiveKept(b, c)
    requires var due := DueExpiries(b, s.registry, date);
             forall j :: 0 <= j < |due| ==> NoneHeld(c, Series(AsOf(s, now), due[j]))
    ensures forall p, i :: HasLeg(c, p, i) ==> !IsDue(LegAt(c, p, i), s.registry, date)
  {
    var due := DueExpiries(b, s.registry, date);
    DueUptoMeaning(b, s.registry, date, |b.positions|, 0);
    forall p, i | HasLeg(c, p, i) && LegAt(c, p, i).Live() ensures !IsDue(LegAt(c, p, i), s.registry, date) {
      var l := LegAt(c, p, i);
      assert HasLeg(b, p, i) && LegAt(b, p, i) == l;
      var e := SpecOf(s.registry, l.instrument).expiry;
      SeriesMeaning(AsOf(s, now), e, l.instrument);
      if e in due {
        var j :| 0 <= j < |due| && due[j] == e;
        assert NoneHeld(c, Series(AsOf(s, now), due[j]));
      }
    }
  }

  lemma CancelOvernight(c: Book, registry: seq<InstrumentSpec>, date: int)
    requires Ready(c) && Sound(c) && forall p, i :: HasLeg(c, p, i) ==> !IsDue(LegAt(c, p, i), registry, date)
    ensures var d := CancelWorking(c);
            Sound(d) && Evolves(c, d, true) && Overnight(d, registry, date) && d.trades == c.trades
  {
    var d := CancelWorking(c);
    CancelWorkingSound(c);
    CancelWorkingEffect(c);
    forall p, i | HasLeg(d, p, i) ensures !IsDue(LegAt(d, p, i), registry, date) {
      assert HasLeg(c, p, i) && LegAt(d, p, i) == AfterDay(LegAt(c, p, i));
    }
  }

  // ----- whole runs ---------------------------------------------------------------------------

  /** Everything that does not depend on which session the trades came from. */
  ghost predicate Standing(b: Book, cfg: Config, t: int, n: nat) {
    Sound(b) && b.delay == cfg.delay && OrdersBy(b, t) && TradesBy(b, t) && Registered(b, n)
  }

  /** Every order trade was priced off a session already replayed. */
  ghost predicate HonestDays(b: Book, dates: seq<int>, k: nat, load: int -> Option<Session>, pol: Policy) {
    k <= |dates| && forall j :: 0 <= j < |b.trades| && !b.trades[j].settled ==> PricedBy(b.trades[j], dates, k, load, pol)
  }

  ghost predicate PricedBy(t: Trade, dates: seq<int>, k: nat, load: int -> Option<Session>, pol: Policy)
    requires k <= |dates|
  {
    exists d :: 0 <= d < k && load(dates[d]).Some?
             && Priced(load(dates[d]).value.registry, pol, AsOf(load(dates[d]).value, t.fillTs), t)
  }

  function TradesReported(daily: seq<Summary>): nat {
    if daily == [] then 0 else TradesReported(daily[..|daily| - 1]) + daily[|daily| - 1].trades
  }

  function SettledReported(daily: seq<Summary>): nat {
    if daily == [] then 0 else SettledReported(daily[..|daily| - 1]) + daily[|daily| - 1].settledLegs
  }

  /** The session lines add up to the run. */
  ghost predicate Reported(b: Book, daily: seq<Summary>) {
    && TradesReported(daily) == |b.trades| && SettledReported(daily) == b.settledLegs
    && (daily != [] ==> daily[|daily| - 1].realized == b.realized && daily[|daily| - 1].costs == b.costs)
  }

  /** The source's contract: every session it has is sorted, later than the epoch, and shares the one registry. */
  ghost predicate Source(dates: seq<int>, load: int -> Option<Session>, registry: seq<InstrumentSpec>) {
    && dates != [] && load(dates[0]).Some?
    && forall d :: 0 <= d < |dates| && load(dates[d]).Some? ==> Timed(load(dates[d]).value) && load(dates[d]).value.registry == registry
  }

  lemma CloseSafe<S>(l: Progress<S>, plan: Plan, s: Session, date: int, seen: nat)
    requires Ready(l.run.book) && Alive(l.run.task) && Standing(l.run.book, plan.cfg, l.run.clock, |s.registry|)
    ensures var r := Close(l, plan, s, date, seen);
            && Standing(r.run.book, plan.cfg, r.run.clock, |s.registry|) && l.run.clock <= r.run.clock
            && OnlySettled(l.run.book, r.run.book, r.run.clock)
            && (Alive(r.run.task) ==> Overnight(r.run.book, s.registry, date) && Evolves(l.run.book, r.run.book, true)
                                      && r.run.book.settledLegs >= l.run.book.settledLegs)
  {
    var b := l.run.book;
    var now := SettleTime(plan, date, l.run.clock);
    var due := DueExpiries(b, s.registry, date);
    if SettleSeries(b, plan, s, now, due, |due|).Some? {
      var c := SettleSeries(b, plan, s, now, due, |due|).value;
      SettleSeriesSound(b, plan, s, now, due, |due|);
      NothingDue(b, c, s, date, now);
      CancelOvernight(c, s.registry, date);
      var d := CancelWorking(c);
      CloseStanding(b, c, d, plan.cfg, l.run.clock, now, |s.registry|);
    }
  }

  lemma CloseStanding(b: Book, c: Book, d: Book, cfg: Config, t: int, now: int, n: nat)
    requires Standing(b, cfg, t, n) && t <= now && Settling(b, c, now)
    requires Sound(d) && Evolves(c, d, true) && d.trades == c.trades && d.pending == [] && SameShape(c, d)
    ensures Standing(d, cfg, now, n) && OnlySettled(b, d, now) && Evolves(b, d, true) && d.settledLegs >= b.settledLegs
  {
    RegisteredStep(b, c, n, false);
    RegisteredStep(c, d, n, true);
    EvolvesWeaken(b, c);
    EvolvesTransitive(b, c, d, true);
    SettledLegsGrow(b, d, now);
    forall k | 0 <= k < |d.trades| ensures d.trades[k].fillTs <= now && (d.trades[k].settled || d.trades[k].fillTs > d.trades[k].signalTs) {
      if k < |b.trades| { assert d.trades[k] == b.trades[k]; }
    }
  }

  lemma EvolvesWeaken(b: Book, c: Book)
    requires Evolves(b, c, false)
    ensures Evolves(b, c, true)
  {
    forall p, i | HasLeg(b, p, i) ensures LegStep(LegAt(b, p, i), LegAt(c, p, i), true) {
      assert LegStep(LegAt(b, p, i), LegAt(c, p, i), false);
    }
  }

  // ----- one day ------------------------------------------------------------------------------

  /** Where a run stands after the first `k` dates. */
  ghost predicate DayInv<S>(l: Progress<S>, cfg: Config, dates: seq<int>, k: nat, load: int -> Option<Session>, registry: seq<InstrumentSpec>) {
    && Ready(l.run.book) && Standing(l.run.book, cfg, l.run.clock, |registry|)
    && HonestDays(l.run.book, dates, k, load, cfg.pol)
    && (Alive(l.run.task) ==> Reported(l.run.book, l.daily) && (l.run.book.pending == [] || l.run.clock == 0))
  }

  lemma StandingIsGood(b: Book, s: Session, cfg: Config, t: int)
    requires Standing(b, cfg, t, |s.registry|)
    ensures Good(b, s, cfg, t, |b.trades|)
  {
  }

  lemma GoodIsStanding(b: Book, s: Session, cfg: Config, t: int, base: nat)
    requires Good(b, s, cfg, t, base)
    ensures Standing(b, cfg, t, |s.registry|) && Honest(b, s, cfg.pol, base) && Balanced(b)
  {
  }

  lemma {:induction false} NoSettlements(a: seq<Trade>, c: seq<Trade>)
    requires a <= c && forall k :: |a| <= k < |c| ==> !c[k].settled
    ensures TradeSum(c, SettlementTrade) == TradeSum(a, SettlementTrade)
  {
    if |a| < |c| {
      NoSettlements(a, c[..|c| - 1]);
    } else {
      assert a == c;
    }
  }

  /** The steps of one session, entered alive. */
  lemma SessionGood<S>(st: Strategy<S>, s: Session, cfg: Config, start: Replay<S>)
    requires Timed(s) && Ready(start.book) && Standing(start.book, cfg, start.clock, |s.registry|)
    requires start.book.pending == [] || start.clock == 0
    ensures var run := RunFrom(st, s, cfg, start, Timeline(s), |Timeline(s)|);
            && Standing(run.book, cfg, run.clock, |s.registry|) && Honest(run.book, s, cfg.pol, |start.book.trades|)
            && start.book.trades <= run.book.trades && run.book.settledLegs == start.book.settledLegs
  {
    var steps, base := Timeline(s), |start.book.trades|;
    var run := RunFrom(st, s, cfg, start, steps, |steps|);
    TimelineIs(s, steps);
    assert steps != [] ==> steps[0] in steps;
    assert Enterable(start, steps) && Balanced(start.book);
    hide Standing, Timed, Timeline, Good, Sound, Evolves, LegsStep, Registered, OrdersBy, TradesBy;
    StandingIsGood(start.book, s, cfg, start.clock);
    RunGood(st, s, cfg, start, steps, |steps|, base);
    RunEvolves(st, s, cfg, start, steps, 0, |steps|, base);
    GoodIsStanding(run.book, s, cfg, run.clock, base);
    EvolvesTrades(start.book, run.book);
    NoSettlements(start.book.trades, run.book.trades);
  }

  lemma EvolvesTrades(b: Book, c: Book)
    requires Evolves(b, c, false)
    ensures b.trades <= c.trades
  {
  }

  lemma HonestDay(a: Book, b: Book, c: Book, dates: seq<int>, k: nat, load: int -> Option<Session>, pol: Policy, now: int)
    requires k < |dates| && load(dates[k]).Some? && HonestDays(a, dates, k, load, pol)
    requires a.trades <= b.trades && Honest(b, load(dates[k]).value, pol, |a.trades|) && OnlySettled(b, c, now)
    ensures HonestDays(c, dates, k + 1, load, pol)
  {
    forall j | 0 <= j < |c.trades| && !c.trades[j].settled ensures PricedBy(c.trades[j], dates, k + 1, load, pol) {
      if j < |a.trades| {
        assert c.trades[j] == a.trades[j];
        assert PricedBy(a.trades[j], dates, k, load, pol);
      } else {
        assert c.trades[j] == b.trades[j];
      }
    }
  }

  lemma ReportedDay(a: Book, b: Book, d: Book, daily: seq<Summary>, line: Summary)
    requires Reported(a, daily) && a.trades <= b.trades <= d.trades && b.settledLegs == a.settledLegs <= d.settledLegs
    requires line.trades == |d.trades| - |a.trades| && line.settledLegs == d.settledLegs - b.settledLegs
    requires line.realized == d.realized && line.costs == d.costs
    ensures Reported(d, daily + [line])
  {
    assert (daily + [line])[..|daily|] == daily;
  }

  lemma HonestMore(b: Book, dates: seq<int>, k: nat, load: int -> Option<Session>, pol: Policy)
    requires k < |dates| && HonestDays(b, dates, k, load, pol)
    ensures HonestDays(b, dates, k + 1, load, pol)
  {
    forall j | 0 <= j < |b.trades| && !b.trades[j].settled ensures PricedBy(b.trades[j], dates, k + 1, load, pol) {
      assert PricedBy(b.trades[j], dates, k, load, pol);
    }
  }

  lemma DayKeeps<S>(st: Strategy<S>, plan: Plan, l: Progress<S>, dates: seq<int>, k: nat, load: int -> Option<Session>, registry: seq<InstrumentSpec>)
    requires Source(dates, load, registry) && k < |dates| && DayInv(l, plan.cfg, dates, k, load, registry)
    ensures var r := Day(st, plan, l, dates[k], load);
            && DayInv(r, plan.cfg, dates, k + 1, load, registry)
            && (load(dates[k]).Some? && Alive(r.run.task) ==> Overnight(r.run.book, registry, dates[k]))
  {
    match load(dates[k])
    case None => HonestMore(l.run.book, dates, k, load, plan.cfg.pol);
    case Some(s) =>
      if Alive(l.run.task) {
        LiveDay(st, plan, l, dates, k, load, registry, s);
      } else {
        DeadStays(st, s, plan.cfg, l.run, Timeline(s), |Timeline(s)|);
        HonestMore(l.run.book, dates, k, load, plan.cfg.pol);
      }
  }

  lemma LiveDay<S>(st: Strategy<S>, plan: Plan, l: Progress<S>, dates: seq<int>, k: nat, load: int -> Option<Session>,
                   registry: seq<InstrumentSpec>, s: Session)
    requires k < |dates| && DayInv(l, plan.cfg, dates, k, load, registry) && Alive(l.run.task)
    requires load(dates[k]) == Some(s) && Timed(s) && s.registry == registry
    ensures var r := Day(st, plan, l, dates[k], load);
            && DayInv(r, plan.cfg, dates, k + 1, load, registry)
            && (Alive(r.run.task) ==> Overnight(r.run.book, registry, dates[k]))
  {
    hide RunFrom, Timed, Timeline, Standing, Close, Honest, HonestDays, OnlySettled, Overnight, Reported, Evolves;
    var run := RunFrom(st, s, plan.cfg, l.run, Timeline(s), |Timeline(s)|);
    SessionGood(st, s, plan.cfg, l.run);
    var mid := l.(run := run);
    var r := Close(mid, plan, s, dates[k], |l.run.book.trades|);
    CloseLines(mid, plan, s, dates[k], |l.run.book.trades|);
    if Alive(run.task) {
      CloseSafe(mid, plan, s, dates[k], |l.run.book.trades|);
      OnlySettledGrows(run.book, r.run.book, r.run.clock);
      if Alive(r.run.task) {
        ReportedDay(l.run.book, run.book, r.run.book, l.daily, r.daily[|l.daily|]);
        OvernightRests(r.run.book, registry, dates[k]);
      }
    } else {
      NothingSettled(run.book, r.run.clock);
    }
    HonestDay(l.run.book, run.book, r.run.book, dates, k, load, plan.cfg.pol, r.run.clock);
  }

  lemma OnlySettledGrows(b: Book, c: Book, now: int)
    requires OnlySettled(b, c, now)
    ensures b.trades <= c.trades
  {
  }

  lemma NothingSettled(b: Book, now: int)
    ensures OnlySettled(b, b, now)
  {
  }

  lemma OvernightRests(b: Book, registry: seq<InstrumentSpec>, date: int)
    requires Overnight(b, registry, date)
    ensures b.pending == []
  {
  }

  /** The line a close writes, when it writes one. */
  lemma CloseLines<S>(l: Progress<S>, plan: Plan, s: Session, date: int, seen: nat)
    requires Ready(l.run.book)
    ensures var r := Close(l, plan, s, date, seen);
            && (!Alive(l.run.task) ==> r == l)
            && (Alive(r.run.task) ==>
                  |r.daily| == |l.daily| + 1
                  && r.daily == l.daily + [SummaryOf(l.run.book, r.run.book, plan, s, date, r.run.clock, seen)])
  {
  }

  lemma {:induction false} DaysKeep<S>(st: Strategy<S>, plan: Plan, dates: seq<int>, load: int -> Option<Session>,
                                       registry: seq<InstrumentSpec>, k: nat)
    requires Source(dates, load, registry) && k <= |dates|
    ensures DayInv(Days(st, plan, dates, load, k), plan.cfg, dates, k, load, registry)
  {
    hide DayInv, Day;
    if k == 0 {
      FirstDay(st, plan, dates, load, registry);
    } else {
      DaysKeep(st, plan, dates, load, registry, k - 1);
      DayKeeps(st, plan, Days(st, plan, dates, load, k - 1), dates, k - 1, load, registry);
    }
  }

  lemma FirstDay<S>(st: Strategy<S>, plan: Plan, dates: seq<int>, load: int -> Option<Session>, registry: seq<InstrumentSpec>)
    requires Source(dates, load, registry)
    ensures DayInv(Days(st, plan, dates, load, 0), plan.cfg, dates, 0, load, registry)
  {
    var s := load(dates[0]).value;
    StartGood(st, s, plan.cfg);
    GoodIsStanding(Started(st, s, plan.cfg).book, s, plan.cfg, 0, 0);
    assert Balanced(Started(st, s, plan.cfg).book);
  }

  /** After every session of every multi-session run: the book is sound; nothing is left working; every
      leg is open, closed or cancelled; no live option has reached its expiry; every order trade came
      strictly after its decision, no sooner than the delay allows, at the fill model's price for the
      quote standing in one of the sessions replayed; and the session lines add up to the run. */
  lemma EverySessionEndsSafe<S>(st: Strategy<S>, plan: Plan, dates: seq<int>, load: int -> Option<Session>,
                                registry: seq<InstrumentSpec>, k: nat)
    requires Source(dates, load, registry) && k < |dates| && load(dates[k]).Some?
    requires Alive(Days(st, plan, dates, load, k + 1).run.task)
    ensures var l := Days(st, plan, dates, load, k + 1);
            && Sound(l.run.book) && Overnight(l.run.book, registry, dates[k]) && Reported(l.run.book, l.daily)
            && (forall j :: 0 <= j < |l.run.book.trades| && !l.run.book.trades[j].settled ==>
                  && l.run.book.trades[j].fillTs > l.run.book.trades[j].signalTs
                  && l.run.book.trades[j].fillTs >= l.run.book.trades[j].signalTs + plan.cfg.delay
                  && PricedBy(l.run.book.trades[j], dates, k + 1, load, plan.cfg.pol))
  {
    DaysKeep(st, plan, dates, load, registry, k);
    DaysKeep(st, plan, dates, load, registry, k + 1);
    DayKeeps(st, plan, Days(st, plan, dates, load, k), dates, k, load, registry);
  }
}
