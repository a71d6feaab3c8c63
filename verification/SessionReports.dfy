/** What a session's line in the result says, and at what level a series settles. */
module SessionReports {
  import opened Types
  import opened Books
  import opened Matching
  import opened Ledger
  import opened Soundness
  import opened Sessions
  import Calendar
  import opened Strategies
  import opened EventLoop
  import opened RunProperties
  import opened Backtest
  import opened BacktestProperties
  import opened CarriedMarks
  import opened Valuation
  import opened ReadingLaws
  import opened RiskRules
  import opened EndOfDay
  import opened Effects

  /** A series settles at the spot's last print by the settlement time; the forward stands in only where the
      spot has not printed, or its last print carries no price. */
  lemma LevelLaw(plan: Plan, s: Session, now: int, expiry: int, i: nat)
    requires Sorted(s) && LastRow(Quotes(s, plan.spot), now, i)
    ensures var last := Quotes(s, plan.spot)[i].last;
            SettlementLevel(plan, s, now, expiry) == if last > 0 then Some(last as real / 100.0) else plan.parity(s, now, expiry)
  {
    hide AsOf, Sorted;
    QuoteLaw(s, plan.cfg, EmptyBook(0), now, plan.spot, i, 0);
  }

  lemma ForwardLevelLaw(plan: Plan, s: Session, now: int, expiry: int)
    requires Sorted(s) && forall i :: 0 <= i < |Quotes(s, plan.spot)| ==> Quotes(s, plan.spot)[i].ts > now
    ensures SettlementLevel(plan, s, now, expiry) == plan.parity(s, now, expiry)
  {
    hide AsOf, Sorted;
    NoQuoteLaw(s, plan.cfg, EmptyBook(0), now, plan.spot, 0);
  }

  // ----- refusals -----------------------------------------------------------------------------

  /** An option is still held whose expiry has come. */
  ghost predicate HeldPastExpiry(b: Book, registry: seq<InstrumentSpec>, date: int) {
    exists p, i :: HasLeg(b, p, i) && LegAt(b, p, i).Live()
                && var spec := SpecOf(registry, LegAt(b, p, i).instrument); spec.kind.OptionKind? && 0 < spec.expiry <= date
  }

  /** Where expiry is forbidden, a session that ends holding an expired option ends the run. */
  lemma ForbiddenExpiryThrows<S>(l: Progress<S>, plan: Plan, s: Session, date: int, seen: nat)
    requires Ready(l.run.book) && Alive(l.run.task) && plan.forbidExpiry && HeldPastExpiry(l.run.book, s.registry, date)
    ensures Close(l, plan, s, date, seen).run.task == Threw && Close(l, plan, s, date, seen).run.book == l.run.book
  {
    hide Ready, SettleTime, SettlementLevel, AsOf, CancelWorking;
    var due := DueExpiries(l.run.book, s.registry, date);
    SomethingDue(l.run.book, s.registry, date);
    SettleSeriesStuck(l.run.book, plan, s, SettleTime(plan, date, l.run.clock), due, 1, |due|);
  }

  /** And so does one for which no level can be found. */
  lemma MissingLevelThrows<S>(l: Progress<S>, plan: Plan, s: Session, date: int, seen: nat)
    requires Ready(l.run.book) && Alive(l.run.task) && HeldPastExpiry(l.run.book, s.registry, date)
    requires forall expiry :: SettlementLevel(plan, s, SettleTime(plan, date, l.run.clock), expiry).None?
    ensures Close(l, plan, s, date, seen).run.task == Threw && Close(l, plan, s, date, seen).run.book == l.run.book
  {
    hide Ready, SettleTime, SettlementLevel, AsOf, CancelWorking;
    var due := DueExpiries(l.run.book, s.registry, date);
    SomethingDue(l.run.book, s.registry, date);
    SettleSeriesStuck(l.run.book, plan, s, SettleTime(plan, date, l.run.clock), due, 1, |due|);
  }

  lemma SomethingDue(b: Book, registry: seq<InstrumentSpec>, date: int)
    requires HeldPastExpiry(b, registry, date)
    ensures DueExpiries(b, registry, date) != []
  {
    DueUptoMeaning(b, registry, date, |b.positions|, 0);
    var p, i :| HasLeg(b, p, i) && LegAt(b, p, i).Live()
             && var spec := SpecOf(registry, LegAt(b, p, i).instrument); spec.kind.OptionKind? && 0 < spec.expiry <= date;
    assert IsDue(LegAt(b, p, i), registry, date);
  }

  /** A run is refused exactly when two dates are out of order or the first session is missing; a session
      missing later is passed over. */
  lemma RefusedRun<S>(st: Strategy<S>, plan: Plan, dates: seq<int>, load: int -> Option<Session>)
    ensures Backtested(st, plan, dates, load) == Invalid <==>
              (exists i :: 0 < i < |dates| && dates[i - 1] > dates[i]) || (dates != [] && load(dates[0]).None?)
    ensures forall k :: 0 <= k < |dates| && load(dates[0]).Some? && load(dates[k]).None? ==>
              Days(st, plan, dates, load, k + 1) == Days(st, plan, dates, load, k)
  {
    hide Ready, Close, RunFrom, Timeline, Started;
  }

  // ----- what settles -------------------------------------------------------------------------

  predicate ExpiredBy(l: Leg, registry: seq<InstrumentSpec>, date: int) {
    var spec := SpecOf(registry, l.instrument);
    spec.kind.OptionKind? && 0 < spec.expiry <= date
  }

  predicate SettledFrom(l: Leg, l': Leg, now: int) {
    l' == l.(exit := l'.exit, exitTs := now, state := Closed, settled := true)
  }

  /** Settling series changes a live leg only by settling it, and only if its series is among them. */
  lemma {:induction false} SeriesTouchDue(b: Book, plan: Plan, s: Session, now: int, due: seq<int>, k: nat, p: nat, i: nat)
    requires Ready(b) && Sound(b) && k <= |due| && SettleSeries(b, plan, s, now, due, k).Some?
    requires HasLeg(b, p, i) && LegAt(b, p, i).Live()
    ensures var l, c, spec := LegAt(b, p, i), SettleSeries(b, plan, s, now, due, k).value, SpecOf(s.registry, LegAt(b, p, i).instrument);
            && HasLeg(c, p, i)
            && (LegAt(c, p, i) == l || (SettledFrom(l, LegAt(c, p, i), now) && spec.kind.OptionKind? && spec.expiry in due[..k]))
  {
    hide Sound, Ready, SettleExpiry, SettlementLevel, AsOf, SettlePrice, Settlements, KeptAfterExpiry;
    if k > 0 {
      SeriesTouchDue(b, plan, s, now, due, k - 1, p, i);
      SettleSeriesSound(b, plan, s, now, due, k - 1);
      var c := SettleSeries(b, plan, s, now, due, k - 1).value;
      SettlingSound(b, c, now);
      MatchedOf(c);
      SettleExpiryEffect(c, plan.cfg.pol, AsOf(s, now), due[k - 1], SettlementLevel(plan, s, now, due[k - 1]).value, now);
      MarketOf(s, now);
      assert due[..k] == due[..k - 1] + [due[k - 1]];
    }
  }

  lemma MatchedOf(b: Book)
    requires Sound(b)
    ensures Matched(b)
  {
  }

  lemma MarketOf(s: Session, now: int)
    ensures AsOf(s, now).registry == s.registry && AsOf(s, now).now == now
  {
  }

  /** The due series are the arrived expiries of live option legs. */
  lemma DueAre(b: Book, registry: seq<InstrumentSpec>, date: int, e: int)
    ensures e in DueExpiries(b, registry, date) <==>
              exists p, i :: HasLeg(b, p, i) && LegAt(b, p, i).Live() && ExpiredBy(LegAt(b, p, i), registry, date)
                          && SpecOf(registry, LegAt(b, p, i).instrument).expiry == e
  {
    DueUptoMeaning(b, registry, date, |b.positions|, 0);
    if p, i :| HasLeg(b, p, i) && LegAt(b, p, i).Live() && ExpiredBy(LegAt(b, p, i), registry, date)
               && SpecOf(registry, LegAt(b, p, i).instrument).expiry == e {
      assert IsDue(LegAt(b, p, i), registry, date);
    }
  }

  /** At the close of a session a leg still held settles exactly if it is an option whose expiry has come;
      any other stays held, its unfilled exit withdrawn. */
  lemma SettlesWhenDue<S>(l: Progress<S>, plan: Plan, s: Session, date: int, seen: nat, p: nat, i: nat)
    requires Ready(l.run.book) && Sound(l.run.book) && Alive(l.run.task) && Alive(Close(l, plan, s, date, seen).run.task)
    requires HasLeg(l.run.book, p, i) && LegAt(l.run.book, p, i).Live()
    ensures var leg, after, now := LegAt(l.run.book, p, i), Close(l, plan, s, date, seen).run.book, SettleTime(plan, date, l.run.clock);
            && HasLeg(after, p, i)
            && if ExpiredBy(leg, s.registry, date) then SettledFrom(leg, LegAt(after, p, i), now)
               else LegAt(after, p, i) == leg.(state := Open)
  {
    hide Sound, Ready, SettleTime, SettleSeries, DueExpiries, CancelWorking, AsOf, ExpiredBy, Settling, Equity, OpenCount;
    var b := l.run.book;
    var leg := LegAt(b, p, i);
    var now := SettleTime(plan, date, l.run.clock);
    var due := DueExpiries(b, s.registry, date);
    var c := SettleSeries(b, plan, s, now, due, |due|).value;
    SeriesTouchDue(b, plan, s, now, due, |due|, p, i);
    SettleSeriesSound(b, plan, s, now, due, |due|);
    SettlingSound(b, c, now);
    MatchedOf(c);
    ReadyRules(c);
    CancelWorkingEffect(c);
    SettledIffDue(b, c, s, date, now, p, i);
  }

  lemma ReadyRules(c: Book)
    requires Ready(c)
    ensures RulesAddressed(c)
  {
  }

  lemma SettledIffDue(b: Book, c: Book, s: Session, date: int, now: int, p: nat, i: nat)
    requires HasLeg(b, p, i) && LegAt(b, p, i).Live() && HasLeg(c, p, i)
    requires var due := DueExpiries(b, s.registry, date);
             && (forall j :: 0 <= j < |due| ==> NoneHeld(c, Series(AsOf(s, now), due[j])))
             && var l, spec := LegAt(b, p, i), SpecOf(s.registry, LegAt(b, p, i).instrument);
                LegAt(c, p, i) == l || (SettledFrom(l, LegAt(c, p, i), now) && spec.kind.OptionKind? && spec.expiry in due[..|due|])
    ensures LegAt(c, p, i) == LegAt(b, p, i) <==> !ExpiredBy(LegAt(b, p, i), s.registry, date)
  {
    hide DueExpiries, AsOf;
    var due := DueExpiries(b, s.registry, date);
    var leg := LegAt(b, p, i);
    var e := SpecOf(s.registry, leg.instrument).expiry;
    assert due[..|due|] == due;
    DueAre(b, s.registry, date, e);
    MarketOf(s, now);
    if ExpiredBy(leg, s.registry, date) {
      var j :| 0 <= j < |due| && due[j] == e;
      assert NoneHeld(c, Series(AsOf(s, now), due[j]));
    }
  }

  // ----- open positions -----------------------------------------------------------------------

  /** Positions that hold something. */
  ghost function Holding(ps: seq<Position>): set<int> {
    set p | 0 <= p < |ps| && exists i :: 0 <= i < |ps[p].legs| && ps[p].legs[i].state.Open?
  }

  lemma {:induction false} OpenCountIsHolding(ps: seq<Position>)
    requires forall p, i :: 0 <= p < |ps| && 0 <= i < |ps[p].legs| ==> !ps[p].legs[i].Working()
    ensures OpenCount(ps) == |Holding(ps)|
  {
    if ps == [] {
      assert Holding(ps) == {};
    } else {
      var n := |ps| - 1;
      forall p, i | 0 <= p < n && 0 <= i < |ps[..n][p].legs| ensures !ps[..n][p].legs[i].Working() {
        assert ps[..n][p] == ps[p];
      }
      OpenCountIsHolding(ps[..n]);
      OpenIsHeld(ps[n].legs);
      assert Holding(ps) == Holding(ps[..n]) + (if IsOpen(ps[n].legs) then {n} else {}) by {
        forall p ensures p in Holding(ps) <==> p in Holding(ps[..n]) || (p == n && IsOpen(ps[n].legs)) {
          if 0 <= p < n { assert ps[..n][p] == ps[p]; }
        }
      }
    }
  }

  lemma OpenIsHeld(legs: seq<Leg>)
    requires forall i :: 0 <= i < |legs| ==> !legs[i].Working()
    ensures IsOpen(legs) <==> exists i :: 0 <= i < |legs| && legs[i].state.Open?
  {
    if i :| 0 <= i < |legs| && legs[i].state.Open? { assert legs[i].Live(); }
  }

  // ----- the line -----------------------------------------------------------------------------

  /** A session's line speaks of the book as it stands at the close: its date, its totals, its equity as
      the log and the holdings account for it, and how many positions still hold something. */
  ghost predicate Tells(line: Summary, b: Book, m: Market, date: int) {
    && line.date == date && line.realized == b.realized && line.costs == b.costs
    && line.equity == TradeSum(b.trades, Cash) - TradeSum(b.trades, CostOf) + BookSum(b.positions, MarkedValue(m))
    && line.openPositions == |Holding(b.positions)|
  }

  lemma LineTells<S>(l: Progress<S>, plan: Plan, s: Session, date: int, seen: nat, registry: seq<InstrumentSpec>)
    requires Ready(l.run.book) && Alive(Close(l, plan, s, date, seen).run.task)
    requires var b := Close(l, plan, s, date, seen).run.book; Sound(b) && EntriesNonNegative(b) && Overnight(b, registry, date)
    ensures var r := Close(l, plan, s, date, seen);
            |r.daily| == |l.daily| + 1 && Tells(r.daily[|l.daily|], r.run.book, AsOf(s, r.run.clock), date)
            && r.run.clock >= Calendar.TimestampOf(date, plan.settleSecond, Calendar.IST_OFFSET_SECONDS)
  {
    hide MatchedBut, Balanced, SpentRules, EntriesNonNegative, AsOf, SettleSeries, DueExpiries, CancelWorking, Calendar.TimestampOf;
    var r := Close(l, plan, s, date, seen);
    CloseLines(l, plan, s, date, seen);
    SoundAccounts(r.run.book, AsOf(s, r.run.clock));
    NothingWorking(r.run.book, registry, date);
    OpenCountIsHolding(r.run.book.positions);
  }

  lemma NothingWorking(b: Book, registry: seq<InstrumentSpec>, date: int)
    requires Overnight(b, registry, date)
    ensures forall p, i :: 0 <= p < |b.positions| && 0 <= i < |b.positions[p].legs| ==> !b.positions[p].legs[i].Working()
  {
    forall p, i | 0 <= p < |b.positions| && 0 <= i < |b.positions[p].legs| ensures !b.positions[p].legs[i].Working() {
      assert HasLeg(b, p, i) && LegAt(b, p, i) == b.positions[p].legs[i];
    }
  }

  /** After every session of every multi-session run the line it adds tells of the book as it stands, at a
      time not before the settlement. */
  lemma EverySessionTells<S>(st: Strategy<S>, plan: Plan, dates: seq<int>, load: int -> Option<Session>,
                             registry: seq<InstrumentSpec>, k: nat, s: Session)
    requires Source(dates, load, registry) && k < |dates| && load(dates[k]) == Some(s) && NonNegativeFills(plan.cfg.pol)
    requires Alive(Days(st, plan, dates, load, k + 1).run.task)
    ensures var before, after := Days(st, plan, dates, load, k), Days(st, plan, dates, load, k + 1);
            && |after.daily| == |before.daily| + 1
            && Tells(after.daily[|before.daily|], after.run.book, AsOf(s, after.run.clock), dates[k])
            && after.run.clock >= Calendar.TimestampOf(dates[k], plan.settleSecond, Calendar.IST_OFFSET_SECONDS)
  {
    hide Sound, EntriesNonNegative, NonNegativeFills, Overnight, Close, RunFrom, Timeline, Timed, Tells, AsOf, Calendar.TimestampOf, Reported, Started;
    var before := Days(st, plan, dates, load, k);
    var run := RunFrom(st, s, plan.cfg, before.run, Timeline(s), |Timeline(s)|);
    EverySessionEndsSafe(st, plan, dates, load, registry, k);
    DaysEntries(st, plan, dates, load, registry, k + 1);
    LineTells(before.(run := run), plan, s, dates[k], |before.run.book.trades|, registry);
  }

  /** And at the close of every session of a multi-session run exactly the expired options settle. */
  lemma EverySessionSettles<S>(st: Strategy<S>, plan: Plan, dates: seq<int>, load: int -> Option<Session>,
                               registry: seq<InstrumentSpec>, k: nat, s: Session, p: nat, i: nat)
    requires Source(dates, load, registry) && k < |dates| && load(dates[k]) == Some(s)
    requires Alive(Days(st, plan, dates, load, k + 1).run.task)
    requires var run := RunFrom(st, s, plan.cfg, Days(st, plan, dates, load, k).run, Timeline(s), |Timeline(s)|);
             HasLeg(run.book, p, i) && LegAt(run.book, p, i).Live()
    ensures var run := RunFrom(st, s, plan.cfg, Days(st, plan, dates, load, k).run, Timeline(s), |Timeline(s)|);
            var leg, after := LegAt(run.book, p, i), Days(st, plan, dates, load, k + 1).run;
            && HasLeg(after.book, p, i)
            && if ExpiredBy(leg, s.registry, dates[k]) then SettledFrom(leg, LegAt(after.book, p, i), after.clock)
               else LegAt(after.book, p, i) == leg.(state := Open)
  {
    hide Sound, Ready, Good, Close, RunFrom, Timeline, Timed, Enterable, Started, ExpiredBy;
    var before := Days(st, plan, dates, load, k);
    var run := RunFrom(st, s, plan.cfg, before.run, Timeline(s), |Timeline(s)|);
    DayAlive(st, plan, before, dates[k], load, s);
    AliveInSession(st, s, plan.cfg, before.run, Timeline(s), |Timeline(s)|);
    DayEntered(st, plan, dates, load, registry, k, s);
    RunGood(st, s, plan.cfg, before.run, Timeline(s), |Timeline(s)|, |before.run.book.trades|);
    GoodIsSound(run.book, s, plan.cfg, run.clock, |before.run.book.trades|);
    SettlesWhenDue(before.(run := run), plan, s, dates[k], |before.run.book.trades|, p, i);
    CloseClock(before.(run := run), plan, s, dates[k], |before.run.book.trades|);
  }

  lemma DayAlive<S>(st: Strategy<S>, plan: Plan, l: Progress<S>, date: int, load: int -> Option<Session>, s: Session)
    requires Ready(l.run.book) && load(date) == Some(s) && Alive(Day(st, plan, l, date, load).run.task)
    ensures Alive(RunFrom(st, s, plan.cfg, l.run, Timeline(s), |Timeline(s)|).task)
  {
    hide Ready, RunFrom, Timeline, SettleSeries, DueExpiries, CancelWorking, AsOf, SettleTime;
  }

  lemma GoodIsSound(b: Book, s: Session, cfg: Config, t: int, base: nat)
    requires Good(b, s, cfg, t, base)
    ensures Sound(b)
  {
  }

  lemma CloseClock<S>(l: Progress<S>, plan: Plan, s: Session, date: int, seen: nat)
    requires Ready(l.run.book) && Alive(l.run.task)
    ensures Close(l, plan, s, date, seen).run.clock == SettleTime(plan, date, l.run.clock)
  {
    hide Ready, SettleTime, SettleSeries, DueExpiries, CancelWorking, AsOf;
  }
}
