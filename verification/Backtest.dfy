/** Many sessions under one portfolio, one clock and one strategy. */
module Backtest {
  import opened Types
  import opened Books
  import opened Sessions
  import opened Events
  import opened Calendar
  import opened Strategies
  import opened EventLoop
  import opened PortfolioObject

  /** `parity` stands for the forward recovered from the chain when the spot has no print. */
  datatype Plan = Plan(cfg: Config, spot: int, forbidExpiry: bool, settleSecond: int,
                       parity: (Session, int, int) -> Option<real>)

  datatype Summary = Summary(date: int, realized: int, costs: int, equity: int,
                             trades: nat, settledLegs: nat, openPositions: nat)

  datatype Progress<+S> = Progress(run: Replay<S>, daily: seq<Summary>)

  // ----- which series are due -----------------------------------------------------------------

  /** A live option leg whose expiry has arrived. */
  predicate IsDue(l: Leg, registry: seq<InstrumentSpec>, today: int) {
    var spec := SpecOf(registry, l.instrument);
    l.Live() && spec.kind == OptionKind && 0 < spec.expiry <= today
  }

  function DueUpto(b: Book, registry: seq<InstrumentSpec>, today: int, p: nat, i: nat): seq<int>
    requires p <= |b.positions| && (if p < |b.positions| then i <= |b.positions[p].legs| else i == 0)
    decreases p, i
  {
    if i > 0 then
      var before := DueUpto(b, registry, today, p, i - 1);
      var l := LegAt(b, p, i - 1);
      if IsDue(l, registry, today) then InsertAscending(before, SpecOf(registry, l.instrument).expiry) else before
    else if p > 0 then DueUpto(b, registry, today, p - 1, |b.positions[p - 1].legs|)
    else []
  }

  function DueExpiries(b: Book, registry: seq<InstrumentSpec>, today: int): seq<int> {
    DueUpto(b, registry, today, |b.positions|, 0)
  }

  /** The spot's last print at the close, else the parity forward. */
  function SettlementLevel(plan: Plan, s: Session, now: int, expiry: int): Option<real> {
    match AsOf(s, now).Latest(plan.spot)
    case Some(q) => if q.last > 0 then Some(q.last as real / 100.0) else plan.parity(s, now, expiry)
    case None => plan.parity(s, now, expiry)
  }

  // ----- the end of a session -----------------------------------------------------------------

  /** Settles the first `k` due series in ascending order; nothing if the source would refuse. */
  function SettleSeries(b: Book, plan: Plan, s: Session, now: int, due: seq<int>, k: nat): (r: Option<Book>)
    requires Ready(b) && k <= |due|
    ensures r.Some? ==> Ready(r.value)
  {
    if k == 0 then Some(b)
    else match SettleSeries(b, plan, s, now, due, k - 1)
      case None => None
      case Some(c) =>
        if plan.forbidExpiry then None
        else match SettlementLevel(plan, s, now, due[k - 1])
          case None => None
          case Some(level) =>
            SettleStaysReady(c, plan.cfg.pol, AsOf(s, now), due[k - 1], level, now);
            Some(SettleExpiry(c, plan.cfg.pol, AsOf(s, now), due[k - 1], level, now))
  }

  lemma SettleStaysReady(b: Book, pol: Policy, m: Market, expiry: int, level: real, when: int)
    requires Ready(b)
    ensures Ready(SettleExpiry(b, pol, m, expiry, level, when))
  {
    SettleUptoRules(b, pol, m, expiry, level, when, |b.positions|, 0);
    DropStaysReady(SettleUpto(b, pol, m, expiry, level, when, |b.positions|, 0), m, expiry, |b.pending|);
  }

  lemma {:induction false} DropStaysReady(b: Book, m: Market, expiry: int, k: nat)
    requires Ready(b) && k <= |b.pending|
    ensures var (c, keep) := DropUpto(b, m, expiry, k); Addressed(b, keep) && c.rules == b.rules
  {
    if k > 0 {
      DropStaysReady(b, m, expiry, k - 1);
    }
  }

  function OpenCount(ps: seq<Position>): nat {
    if ps == [] then 0 else OpenCount(ps[..|ps| - 1]) + if IsOpen(ps[|ps| - 1].legs) then 1 else 0
  }

  function SettleTime(plan: Plan, date: int, clock: int): int {
    Max(clock, TimestampOf(date, plan.settleSecond, IST_OFFSET_SECONDS))
  }

  /** After the last step: settle what is due, end the day's orders, and write the summary.  `seen`
      trades had been reported before this session. */
  function Close<S>(l: Progress<S>, plan: Plan, s: Session, date: int, seen: nat): (r: Progress<S>)
    requires Ready(l.run.book)
    ensures Ready(r.run.book)
  {
    if !Alive(l.run.task) then l
    else
      var b := l.run.book;
      var now := SettleTime(plan, date, l.run.clock);
      var due := DueExpiries(b, s.registry, date);
      match SettleSeries(b, plan, s, now, due, |due|)
      case None => l.(run := l.run.(task := Threw, clock := now))
      case Some(c) =>
        var d := CancelWorking(c);
        Progress(Replay(d, l.run.task, now), l.daily + [SummaryOf(b, d, plan, s, date, now, seen)])
  }

  /** The session's line in the result: `b` as its last step left it, `d` after the close. */
  function SummaryOf(b: Book, d: Book, plan: Plan, s: Session, date: int, now: int, seen: nat): Summary {
    Summary(date, d.realized, d.costs, Equity(d, AsOf(s, now)),
            if |d.trades| >= seen then |d.trades| - seen else 0,
            if d.settledLegs >= b.settledLegs then d.settledLegs - b.settledLegs else 0, OpenCount(d.positions))
  }

  /** One date: skipped if the source has no session, else replayed from where everything stands. */
  function Day<S>(st: Strategy<S>, plan: Plan, l: Progress<S>, date: int, load: int -> Option<Session>): (r: Progress<S>)
    requires Ready(l.run.book)
    ensures Ready(r.run.book)
  {
    match load(date)
    case None => l
    case Some(s) =>
      var run := RunFrom(st, s, plan.cfg, l.run, Timeline(s), |Timeline(s)|);
      Close(l.(run := run), plan, s, date, |l.run.book.trades|)
  }

  function Days<S>(st: Strategy<S>, plan: Plan, dates: seq<int>, load: int -> Option<Session>, k: nat): (r: Progress<S>)
    requires k <= |dates| && dates != [] && load(dates[0]).Some?
    ensures Ready(r.run.book)
  {
    if k == 0 then Progress(Started(st, load(dates[0]).value, plan.cfg), [])
    else Day(st, plan, Days(st, plan, dates, load, k - 1), dates[k - 1], load)
  }

  /** A run that was refused, or the state after its last date.  With no dates there is nothing to run. */
  datatype Outcome<+S> = Invalid | Nothing | Ran(end: Progress<S>)

  predicate InOrder(dates: seq<int>) {
    forall i :: 0 < i < |dates| ==> dates[i - 1] <= dates[i]
  }

  function Backtested<S>(st: Strategy<S>, plan: Plan, dates: seq<int>, load: int -> Option<Session>): Outcome<S> {
    if !InOrder(dates) then Invalid
    else if dates == [] then Nothing
    else if load(dates[0]).None? then Invalid
    else Ran(Days(st, plan, dates, load, |dates|))
  }

  // ----- the engine ---------------------------------------------------------------------------

  method DatesInOrder(dates: seq<int>) returns (ok: bool)
    ensures ok == InOrder(dates)
  {
    var i := 1;
    while i < |dates|
      invariant 1 <= i && forall j :: 0 < j < i && j < |dates| ==> dates[j - 1] <= dates[j]
    {
      if dates[i - 1] > dates[i] { return false; }
      i := i + 1;
    }
    return true;
  }

  /** The expiries that have arrived and still have something open against them, ascending. */
  method CollectDue(portfolio: Portfolio, registry: seq<InstrumentSpec>, today: int) returns (due: seq<int>)
    ensures due == DueExpiries(portfolio.Contents(), registry, today)
  {
    due := [];
    var p := 0;
    while p < |portfolio.positions|
      invariant 0 <= p <= |portfolio.positions| && due == DueUpto(portfolio.Contents(), registry, today, p, 0)
    {
      var legs := portfolio.positions[p].legs;
      var i := 0;
      while i < |legs|
        invariant 0 <= i <= |legs| && due == DueUpto(portfolio.Contents(), registry, today, p, i)
      {
        if IsDue(legs[i], registry, today) {
          due := InsertAscending(due, SpecOf(registry, legs[i].instrument).expiry);
        }
        i := i + 1;
      }
      p := p + 1;
    }
  }

  lemma {:induction false} SettleSeriesStuck(b: Book, plan: Plan, s: Session, now: int, due: seq<int>, j: nat, k: nat)
    requires Ready(b) && j <= k <= |due| && SettleSeries(b, plan, s, now, due, j).None?
    ensures SettleSeries(b, plan, s, now, due, k).None?
  {
    if j < k {
      SettleSeriesStuck(b, plan, s, now, due, j, k - 1);
    }
  }

  /** Settles the due series in turn; gives up as soon as one cannot be settled. */
  method SettleDue(portfolio: Portfolio, plan: Plan, s: Session, now: int, due: seq<int>) returns (ok: bool)
    requires portfolio.Valid() && !portfolio.closingFromRule && portfolio.pol == plan.cfg.pol
    modifies portfolio
    ensures portfolio.Valid() && !portfolio.closingFromRule
    ensures ok == SettleSeries(old(portfolio.Contents()), plan, s, now, due, |due|).Some?
    ensures ok ==> Some(portfolio.Contents()) == SettleSeries(old(portfolio.Contents()), plan, s, now, due, |due|)
  {
    hide SettlementLevel, AsOf;
    ghost var b := portfolio.Contents();
    var k := 0;
    while k < |due|
      invariant 0 <= k <= |due| && portfolio.Valid() && !portfolio.closingFromRule
      invariant SettleSeries(b, plan, s, now, due, k) == Some(portfolio.Contents())
    {
      if plan.forbidExpiry {
        SettleSeriesStuck(b, plan, s, now, due, k + 1, |due|);
        return false;
      }
      var level := SettlementLevel(plan, s, now, due[k]);
      if level.None? {
        SettleSeriesStuck(b, plan, s, now, due, k + 1, |due|);
        return false;
      }
      var _ := portfolio.SettleExpiry(AsOf(s, now), due[k], level.value, now);
      k := k + 1;
    }
    return true;
  }

  method CountOpen(portfolio: Portfolio) returns (n: nat)
    ensures n == OpenCount(portfolio.positions)
  {
    n := 0;
    var p := 0;
    while p < |portfolio.positions|
      invariant 0 <= p <= |portfolio.positions| && n == OpenCount(portfolio.positions[..p])
    {
      assert portfolio.positions[..p + 1][..p] == portfolio.positions[..p];
      if IsOpen(portfolio.positions[p].legs) { n := n + 1; }
      p := p + 1;
    }
    assert portfolio.positions[..p] == portfolio.positions;
  }

  /** The end of a session, entered alive: settle, drop the day's orders, report. */
  method EndSession<S>(portfolio: Portfolio, clock: ReplayClock, plan: Plan, s: Session, date: int, seen: nat, task: Task<S>,
                       ghost daily: seq<Summary>)
    returns (ok: bool, line: Summary)
    requires portfolio.Valid() && !portfolio.closingFromRule && portfolio.pol == plan.cfg.pol && Alive(task)
    modifies portfolio, clock
    ensures portfolio.Valid() && !portfolio.closingFromRule
    ensures var r := Close(Progress(Replay(old(portfolio.Contents()), task, old(clock.now)), daily), plan, s, date, seen);
            && ok == Alive(r.run.task)
            && (ok ==> r == Progress(Replay(portfolio.Contents(), task, clock.now), daily + [line]))
  {
    hide SettleSeries, DueExpiries, CancelWorking, Equity, OpenCount, AsOf;
    line := Summary(date, 0, 0, 0, 0, 0, 0);
    var settleAt := TimestampOf(date, plan.settleSecond, IST_OFFSET_SECONDS);
    if settleAt > clock.now {
      var _ := clock.AdvanceTo(settleAt);
    }
    var before := portfolio.settledLegs;
    var due := CollectDue(portfolio, s.registry, date);
    ok := SettleDue(portfolio, plan, s, clock.now, due);
    if !ok { return; }
    var _ := portfolio.CancelWorkingOrders();
    var equity := portfolio.EquityNow(AsOf(s, clock.now));
    var open := CountOpen(portfolio);
    line := Summary(date, portfolio.realized, portfolio.costs, equity,
                    if |portfolio.trades| >= seen then |portfolio.trades| - seen else 0,
                    if portfolio.settledLegs >= before then portfolio.settledLegs - before else 0, open);
  }

  lemma DeadDay<S>(st: Strategy<S>, plan: Plan, l: Progress<S>, date: int, load: int -> Option<Session>)
    requires Ready(l.run.book) && !Alive(l.run.task)
    ensures Day(st, plan, l, date, load) == l
  {
    if load(date).Some? {
      var s := load(date).value;
      DeadStays(st, s, plan.cfg, l.run, Timeline(s), |Timeline(s)|);
    }
  }

  /** A session the engine can replay: sorted columns, and caches, if any, that agree with them. */
  ghost predicate Replayable(s: Session) {
    && Sorted(s) && (s.order != [] ==> IsEventOrder(s, s.order)) && (s.timeline != [] ==> IsTimeline(s, s.timeline))
    && forall t :: Prints(s, t) ==> t > NO_TIME
  }

  /** One date of the loop. */
  method RunDay<S>(st: Strategy<S>, plan: Plan, portfolio: Portfolio, clock: ReplayClock, task0: Task<S>,
                   date: int, load: int -> Option<Session>, ghost daily: seq<Summary>)
    returns (task: Task<S>, lines: seq<Summary>)
    requires portfolio.Valid() && !portfolio.closingFromRule && portfolio.pol == plan.cfg.pol && Alive(task0)
    requires load(date).Some? ==> Replayable(load(date).value)
    modifies portfolio, clock
    ensures portfolio.Valid() && !portfolio.closingFromRule
    ensures var r := Day(st, plan, Progress(Replay(old(portfolio.Contents()), task0, old(clock.now)), daily), date, load);
            && Alive(task) == Alive(r.run.task)
            && (Alive(task) ==> r == Progress(Replay(portfolio.Contents(), task, clock.now), daily + lines))
  {
    hide RunFrom, Close, Timeline, IsTimeline, IsEventOrder, Sorted;
    lines := [];
    var next := load(date);
    if next.None? { return task0, []; }
    var s := next.value;
    var seen := |portfolio.trades|;
    var steps := ReplaySteps(s);
    TimelineIs(s, steps);
    task := Walk(st, s, plan.cfg, portfolio, clock, task0, steps);
    if !Alive(task) {
      DeadClose(Progress(Replay(portfolio.Contents(), task, clock.now), daily), plan, s, date, seen);
      return;
    }
    var ok, line := EndSession(portfolio, clock, plan, s, date, seen, task, daily);
    if ok { lines := [line]; } else { task := Threw; }
  }

  lemma DeadClose<S>(l: Progress<S>, plan: Plan, s: Session, date: int, seen: nat)
    requires Ready(l.run.book) && !Alive(l.run.task)
    ensures Close(l, plan, s, date, seen) == l
  {
  }

  /** Replays every session the source has, in date order, under one portfolio, clock and strategy. */
  method RunBacktest<S>(st: Strategy<S>, plan: Plan, dates: seq<int>, load: int -> Option<Session>)
    returns (portfolio: Portfolio, task: Task<S>, daily: seq<Summary>)
    requires plan.cfg.delay >= 0
    requires forall d :: 0 <= d < |dates| && load(dates[d]).Some? ==> Replayable(load(dates[d]).value)
    ensures match Backtested(st, plan, dates, load)
            case Invalid => task == Threw
            case Nothing => task == Returned && daily == [] && portfolio.Contents() == EmptyBook(plan.cfg.delay)
            case Ran(end) =>
              && Alive(task) == Alive(end.run.task)
              && (Alive(task) ==> portfolio.Contents() == end.run.book && task == end.run.task && daily == end.daily)
  {
    hide Day, Replayable, Started;
    var clock := new ReplayClock();
    portfolio := new Portfolio(plan.cfg.pol, plan.cfg.delay);
    daily := [];
    var ordered := DatesInOrder(dates);
    if !ordered { task := Threw; return; }
    if dates == [] { task := Returned; return; }
    var first := load(dates[0]);
    if first.None? { task := Threw; return; }
    task := EnterStrategy(st, first.value, plan.cfg, portfolio);
    var k := 0;
    while k < |dates|
      invariant 0 <= k <= |dates| && portfolio.Valid() && !portfolio.closingFromRule
      invariant Alive(task) == Alive(Days(st, plan, dates, load, k).run.task)
      invariant Alive(task) ==> Days(st, plan, dates, load, k) == Progress(Replay(portfolio.Contents(), task, clock.now), daily)
      modifies portfolio, clock
    {
      if Alive(task) {
        var lines;
        task, lines := RunDay(st, plan, portfolio, clock, task, dates[k], load, daily);
        daily := daily + lines;
      } else {
        DeadDay(st, plan, Days(st, plan, dates, load, k), dates[k], load);
      }
      k := k + 1;
    }
  }

  /** The strategy is entered before the first session's data, with the clock at zero. */
  method EnterStrategy<S>(st: Strategy<S>, s: Session, cfg: Config, portfolio: Portfolio) returns (task: Task<S>)
    requires Replayable(s) && portfolio.Valid() && !portfolio.closingFromRule && portfolio.Contents() == EmptyBook(cfg.delay)
    modifies portfolio
    ensures portfolio.Valid() && !portfolio.closingFromRule
    ensures Replay(portfolio.Contents(), task, 0) == Started(st, s, cfg)
  {
    task := ResumeTask(st, s, cfg, portfolio, 0, st.start);
  }
}
